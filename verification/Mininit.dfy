/**
 The early init program (mininit/init.c): the argument vector it hands on, the list of devices it
 tries to mount, and the directories it makes.  System calls may succeed or fail; their outcomes are
 parameters.
 */
module Mininit {
  import opened Bits
  import opened CStrings
  import opened Params
  import opened Seqs

  const SLOTS := 64
  const NULL := -1      // the null pointer
  const PROGRAM := -2   // the buffer with the name of the program to run

  lemma SlotsKept(pv: seq<int>, ps: seq<int>)
    requires |pv| == SLOTS && |ps| <= SLOTS - 2
    ensures Placed(pv, 1, ps)[0 := PROGRAM][1 + |ps| := NULL][1..1 + |ps|] == ps
  {
  }

  /** The argument vector built from the command line: the program, the parameters, and a null pointer,
      always within its 64 slots. */
  method Arguments(cbuf: array<Byte>, ghost n: nat) returns (paramv: array<int>, paramc: nat)
    requires HoldsLine(cbuf[..], n)
    modifies cbuf
    ensures fresh(paramv) && paramv.Length == SLOTS && 1 <= paramc < SLOTS
    ensures paramv[0] == PROGRAM && paramv[paramc] == NULL
    ensures AreStrings(cbuf[..], paramv[1..paramc], Split(old(cbuf[..])[..n], SLOTS - 2))
  {
    hide Split, AreStrings, Placed, HoldsLine;
    paramv := new int[SLOTS];
    ghost var pv := paramv[..];
    var k := MkParam(cbuf, paramv, 1, SLOTS - 2, n);
    ghost var ps := paramv[1..1 + k];
    SlotsKept(pv, ps);
    paramc := 1 + k;
    paramv[0] := PROGRAM;
    paramv[paramc] := NULL;
    assert paramv[..] == Placed(pv, 1, ps)[0 := PROGRAM][1 + |ps| := NULL];
    assert paramv[1..paramc] == paramv[..][1..paramc];
  }

  // ----- comma separated devices -----

  function UpToComma(s: seq<Byte>): (k: nat)
    ensures k <= |s| && COMMA !in s[..k] && (k < |s| ==> s[k] == COMMA)
  {
    if s == [] || s[0] == COMMA then 0 else 1 + UpToComma(s[1..])
  }

  /** The parts of a list between commas; the empty list has one, empty, part. */
  function Parts(s: seq<Byte>): (ps: seq<seq<Byte>>)
    ensures |ps| >= 1
    decreases |s|
  {
    var k := UpToComma(s);
    [s[..k]] + if k == |s| then [] else Parts(s[k + 1..])
  }

  function Joined(parts: seq<seq<Byte>>): seq<Byte> {
    if parts == [] then [] else if |parts| == 1 then parts[0] else parts[0] + [COMMA] + Joined(parts[1..])
  }

  lemma {:induction false} UpToCommaOf(part: seq<Byte>, rest: seq<Byte>)
    requires COMMA !in part && (rest == [] || rest[0] == COMMA)
    ensures UpToComma(part + rest) == |part|
  {
    if part == [] {
      assert part + rest == rest;
    } else {
      assert (part + rest)[1..] == part[1..] + rest;
      UpToCommaOf(part[1..], rest);
    }
  }

  /** Splitting at commas undoes joining with them. */
  lemma {:induction false} PartsOfJoined(parts: seq<seq<Byte>>)
    requires parts != [] && forall i :: 0 <= i < |parts| ==> COMMA !in parts[i]
    ensures Parts(Joined(parts)) == parts
    decreases |parts|
  {
    if |parts| == 1 {
      UpToCommaOf(parts[0], []);
      assert parts[0] + [] == parts[0];
    } else {
      var rest := [COMMA] + Joined(parts[1..]);
      assert Joined(parts) == parts[0] + rest;
      UpToCommaOf(parts[0], rest);
      assert Joined(parts)[|parts[0]| + 1..] == Joined(parts[1..]);
      PartsOfJoined(parts[1..]);
    }
  }

  lemma {:induction false} JoinedParts(s: seq<Byte>)
    ensures Joined(Parts(s)) == s
    decreases |s|
  {
    var k := UpToComma(s);
    PartsStep(s);
    hide Parts, UpToComma;
    if k < |s| {
      JoinedParts(s[k + 1..]);
      assert s == s[..k] + [COMMA] + s[k + 1..];
    } else {
      assert s[..k] == s;
    }
  }

  /** The i-th attempt is on part i mod |parts|. */
  ghost predicate Cycling(tried: seq<seq<Byte>>, parts: seq<seq<Byte>>)
    requires parts != []
  {
    forall i :: 0 <= i < |tried| ==> tried[i] == parts[i % |parts|]
  }

  /** Cut the list off after the part at `s`, try that part, and put the byte back. */
  method TryPart(source: array<Byte>, s: nat, ghost n: nat, outcome: bool) returns (e: nat, text: seq<Byte>, ok: bool)
    requires s <= n < source.Length && source[n] == NUL && NoNul(source[s..n])
    modifies source
    ensures source[..] == old(source[..]) && ok == outcome
    ensures e == s + UpToComma(source[s..n]) && text == source[s..e] && (e < n <==> source[e] == COMMA)
  {
    ghost var orig := source[..];
    e := s;
    while source[e] != COMMA && source[e] != NUL
      invariant s <= e <= n && COMMA !in source[s..e] && source[..] == orig
      decreases n - e
    {
      e := e + 1;
    }
    assert e < n ==> source[e] in source[s..n];
    assert source[s..n][..e - s] == source[s..e];
    PartEnds(source[s..n], e - s);
    var c := source[e];
    source[e] := NUL;
    assert source[..] == orig[e := NUL] && orig[e := NUL][s..e] == orig[s..n][..e - s];
    CStrIs(source[..], s, e);
    text := CStr(source[..], s);
    ok := outcome;
    source[e] := c;
    assert source[..] == orig;
  }

  lemma PartEnds(s: seq<Byte>, k: nat)
    requires k <= |s| && COMMA !in s[..k] && (k < |s| ==> s[k] == COMMA)
    ensures UpToComma(s) == k
  {
  }

  lemma SubSlice(b: seq<Byte>, start: nat, n: nat, s: nat, e: nat)
    requires start <= s <= e <= n < |b|
    ensures b[s..e] == b[start..n][s - start..e - start] && b[s..n] == b[start..n][s - start..]
    ensures e < n ==> b[e] == b[start..n][e - start]
  {
    var line := b[start..n];
    assert forall k :: 0 <= k < n - start ==> line[k] == b[start + k];
    assert b[s..e] == line[s - start..e - start];
    assert b[s..n] == line[s - start..];
  }

  /** Where one round over the list stands. */
  ghost predicate Walk(line: seq<Byte>, i: nat, s: nat) {
    s <= |line| && i < |Parts(line)| && Parts(line)[i..] == Parts(line[s..])
  }

  lemma WalkStart(line: seq<Byte>)
    ensures Walk(line, 0, 0)
  {
  }

  lemma WalkStep(line: seq<Byte>, i: nat, s: nat, e: nat)
    requires Walk(line, i, s) && e == s + UpToComma(line[s..])
    ensures e <= |line| && Parts(line)[i] == line[s..e]
    ensures if e < |line| then i + 1 < |Parts(line)| && Walk(line, i + 1, e + 1) else i + 1 == |Parts(line)|
  {
    hide Parts, UpToComma;
    PartsStep(line[s..]);
    var rest := Parts(line[s..]);
    assert Parts(line)[i] == Parts(line)[i..][0] == rest[0];
    assert line[s..][..e - s] == line[s..e];
    assert Parts(line)[i + 1..] == Parts(line)[i..][1..] == rest[1..];
    if e < |line| {
      assert line[s..][e - s + 1..] == line[e + 1..];
    }
  }

  lemma PartsStep(t: seq<Byte>)
    ensures var k := UpToComma(t);
            Parts(t)[0] == t[..k] && Parts(t)[1..] == if k == |t| then [] else Parts(t[k + 1..])
  {
    hide UpToComma;
    var k := UpToComma(t);
    var rest := if k == |t| then [] else Parts(t[k + 1..]);
    assert Parts(t) == [t[..k]] + rest && ([t[..k]] + rest)[1..] == rest;
  }

  lemma NextInCycle(tried: seq<seq<Byte>>, parts: seq<seq<Byte>>, round: nat, i: nat, text: seq<Byte>)
    requires parts != [] && Cycling(tried, parts) && i < |parts| && |tried| == round * |parts| + i && text == parts[i]
    ensures Cycling(tried + [text], parts)
  {
    DivUnique(|tried|, |parts|, round, i);
  }

  /** Try each part of the list in turn, for a number of rounds, up to the first that works. */
  method MultiMount(source: array<Byte>, start: nat, ghost n: nat, retries: int, outcome: nat -> bool)
    returns (ok: bool, tried: seq<seq<Byte>>)
    requires start <= n < source.Length && source[n] == NUL && NoNul(source[start..n])
    modifies source
    ensures source[..] == old(source[..])
    ensures var parts := Parts(source[start..n]);
            && Cycling(tried, parts)
            && (forall i :: 0 <= i < |tried| - 1 ==> !outcome(i))
            && (if ok then tried != [] && outcome(|tried| - 1)
                else |tried| == (if retries > 0 then retries else 0) * |parts| && (tried != [] ==> !outcome(|tried| - 1)))
  {
    hide Parts, UpToComma, CStr, Cycling, Walk;
    ghost var orig := source[..];
    ghost var line := orig[start..n];
    ghost var parts := Parts(line);
    tried := [];
    NoneTried(parts);
    var round := 0;
    while round < retries
      invariant 0 <= round && (if retries > 0 then round <= retries else round == 0) && source[..] == orig
      invariant |tried| == round * |parts| && Cycling(tried, parts)
      invariant forall i :: 0 <= i < |tried| ==> !outcome(i)
    {
      var s, more := start, true;
      ghost var i := 0;
      WalkStart(line);
      while more
        invariant start <= s && source[..] == orig && 0 <= i <= |parts|
        invariant if more then s <= n && Walk(line, i, s - start) && i < |parts| else i == |parts|
        invariant |tried| == round * |parts| + i && Cycling(tried, parts)
        invariant forall j :: 0 <= j < |tried| ==> !outcome(j)
        decreases |parts| - i
      {
        SubSlice(orig, start, n, s, n);
        var e, text, works := TryPart(source, s, n, outcome(|tried|));
        WalkStep(line, i, s - start, e - start);
        SubSlice(orig, start, n, s, e);
        NextInCycle(tried, parts, round, i, text);
        tried := tried + [text];
        if works {
          return true, tried;
        }
        i := i + 1;
        more := source[e] == COMMA;
        s := e + 1;
      }
      assert (round + 1) * |parts| == round * |parts| + |parts|;
      round := round + 1;
    }
    assert round == if retries > 0 then retries else 0;
    ok := false;
  }

  lemma NoneTried(parts: seq<seq<Byte>>)
    requires parts != []
    ensures Cycling([], parts)
  {
  }

  // ----- directories -----

  datatype Mkdir = Made | Exists | Failed

  const PATH_SIZE := 256

  /** Positions of the slashes of a path from `from` on. */
  function Slashes(path: seq<Byte>, from: nat): seq<nat>
    decreases |path| - from
  {
    if from >= |path| then []
    else (if path[from] == SLASH then [from] else []) + Slashes(path, from + 1)
  }

  lemma {:induction false} SlashesAre(path: seq<Byte>, from: nat, i: nat)
    ensures i in Slashes(path, from) <==> from <= i < |path| && path[i] == SLASH
    decreases |path| - from
  {
    if from < |path| {
      SlashesAre(path, from + 1, i);
    }
  }

  lemma {:induction false} SlashesInOrder(path: seq<Byte>, from: nat)
    ensures forall i, j :: 0 <= i < j < |Slashes(path, from)| ==> Slashes(path, from)[i] < Slashes(path, from)[j]
    ensures forall i :: 0 <= i < |Slashes(path, from)| ==> from <= Slashes(path, from)[i] < |path|
    decreases |path| - from
  {
    if from < |path| {
      SlashesInOrder(path, from + 1);
    }
  }

  /** The directories above a path, outermost first. */
  function Ancestors(path: seq<Byte>): (r: seq<seq<Byte>>)
    ensures |r| == |Slashes(path, 1)|
  {
    SlashesInOrder(path, 1);
    seq(|Slashes(path, 1)|, i requires 0 <= i < |Slashes(path, 1)| => path[..Slashes(path, 1)[i]])
  }

  /** `made` was asked for in order, and nothing failed before the last. */
  ghost predicate Asked(made: seq<seq<Byte>>, dirs: seq<seq<Byte>>, outcome: nat -> Mkdir) {
    made <= dirs && forall i :: 0 <= i < |made| - 1 ==> outcome(i) != Failed
  }

  ghost predicate CopiedTo(b: seq<Byte>, path: seq<Byte>, i: nat) {
    i < |b| && i <= |path| && b[..i] == path[..i] && b[i] == NUL
  }

  /** `made` is the ancestors at the slashes before `i`. */
  ghost predicate MadeUpTo(path: seq<Byte>, i: nat, made: seq<seq<Byte>>) {
    1 <= i && |made| + |Slashes(path, i)| == |Slashes(path, 1)| && made <= Ancestors(path)
      && Slashes(path, 1)[|made|..] == Slashes(path, i)
  }

  lemma MadeNone(path: seq<Byte>)
    ensures MadeUpTo(path, 1, [])
  {
  }

  lemma MadeNext(path: seq<Byte>, i: nat, made: seq<seq<Byte>>)
    requires MadeUpTo(path, i, made) && i < |path|
    ensures path[i] != SLASH ==> MadeUpTo(path, i + 1, made)
    ensures path[i] == SLASH ==> MadeUpTo(path, i + 1, made + [path[..i]])
  {
  }

  lemma MadeAll(path: seq<Byte>, made: seq<seq<Byte>>)
    requires path != [] && MadeUpTo(path, |path|, made)
    ensures made == Ancestors(path)
  {
  }

  /** Make the directories above a path. */
  method MkPath(path: seq<Byte>, outcome: nat -> Mkdir) returns (r: int, made: seq<seq<Byte>>)
    requires NoNul(path) && |path| < PATH_SIZE
    ensures Asked(made, Ancestors(path), outcome)
    ensures if r == 0 then made == Ancestors(path) && (made != [] ==> outcome(|made| - 1) != Failed)
            else r == -1 && made != [] && outcome(|made| - 1) == Failed
  {
    made := [];
    if path == [] {
      return 0, made;
    }
    MadeNone(path);
    hide MadeUpTo, Slashes, Ancestors, CStr;
    var buf := new Byte[PATH_SIZE];
    buf[0] := path[0];
    var i := 1;
    buf[i] := NUL;
    while i < |path|
      invariant 1 <= i <= |path| && CopiedTo(buf[..], path, i) && MadeUpTo(path, i, made)
      invariant forall j :: 0 <= j < |made| ==> outcome(j) != Failed
    {
      MadeNext(path, i, made);
      if path[i] == SLASH {
        CStrIs(buf[..], 0, i);
        made := made + [CStr(buf[..], 0)];
        if outcome(|made| - 1) == Failed {
          MadeIsPrefix(path, i + 1, made);
          return -1, made;
        }
      }
      buf[i] := path[i];
      i := i + 1;
      buf[i] := NUL;
    }
    MadeAll(path, made);
    return 0, made;
  }

  lemma MadeIsPrefix(path: seq<Byte>, i: nat, made: seq<seq<Byte>>)
    requires MadeUpTo(path, i, made)
    ensures made <= Ancestors(path)
  {
  }

  /** Make a directory and the directories above it. */
  method MakeDirectory(path: seq<Byte>, outcome: nat -> Mkdir) returns (r: int, made: seq<seq<Byte>>)
    requires NoNul(path) && |path| < PATH_SIZE
    ensures Asked(made, Ancestors(path) + [path], outcome) && made != []
    ensures r == if outcome(|made| - 1) == Failed then -1 else 0
    ensures r == 0 ==> made == Ancestors(path) + [path]
  {
    r, made := MkPath(path, outcome);
    if r < 0 {
      return;
    }
    made := made + [path];
    r := if outcome(|made| - 1) == Failed then -1 else 0;
  }
}
