/**
 Splitting the kernel command line into parameters (mininit/init.c).
 */
module Params {
  import opened Bits
  import opened CStrings
  import opened Seqs

  // ----- what the parameters of a line are -----

  function Spaces(s: seq<Byte>): (k: nat)
    ensures k <= |s| && (forall i :: 0 <= i < k ==> IsSpace(s[i])) && (k < |s| ==> !IsSpace(s[k]))
  {
    if s == [] || !IsSpace(s[0]) then 0 else 1 + Spaces(s[1..])
  }

  function WordLength(s: seq<Byte>): (k: nat)
    ensures k <= |s| && (forall i :: 0 <= i < k ==> !IsSpace(s[i])) && (k < |s| ==> IsSpace(s[k]))
  {
    if s == [] || IsSpace(s[0]) then 0 else 1 + WordLength(s[1..])
  }

  /** The words of a line; if there are `max` or more, the last one is the rest of the line. */
  function Split(s: seq<Byte>, max: int): seq<seq<Byte>>
    decreases |s|
  {
    var t := s[Spaces(s)..];
    if t == [] then []
    else if max <= 1 then [t]
    else
      var n := WordLength(t);
      [t[..n]] + if n == |t| then [] else Split(t[n + 1..], max - 1)
  }

  // ----- joining and splitting -----

  predicate AllSpace(s: seq<Byte>) { forall i :: 0 <= i < |s| ==> IsSpace(s[i]) }

  predicate IsWord(s: seq<Byte>) { s != [] && forall i :: 0 <= i < |s| ==> !IsSpace(s[i]) }

  /** Words with white space before each and at the end. */
  function Line(words: seq<seq<Byte>>, gaps: seq<seq<Byte>>, trail: seq<Byte>): seq<Byte>
    requires |words| == |gaps|
  {
    if words == [] then trail else gaps[0] + words[0] + Line(words[1..], gaps[1..], trail)
  }

  predicate Separated(words: seq<seq<Byte>>, gaps: seq<seq<Byte>>, trail: seq<Byte>) {
    && |words| == |gaps| && AllSpace(trail)
    && (forall i :: 0 <= i < |words| ==> IsWord(words[i]))
    && (forall i :: 0 <= i < |gaps| ==> AllSpace(gaps[i]) && (i > 0 ==> gaps[i] != []))
  }

  lemma {:induction false} SpacesOf(gap: seq<Byte>, s: seq<Byte>)
    requires AllSpace(gap) && (s == [] || !IsSpace(s[0]))
    ensures Spaces(gap + s) == |gap|
  {
    if gap == [] {
      assert gap + s == s;
    } else {
      assert (gap + s)[1..] == gap[1..] + s;
      SpacesOf(gap[1..], s);
    }
  }

  lemma {:induction false} WordOf(word: seq<Byte>, s: seq<Byte>)
    requires (forall i :: 0 <= i < |word| ==> !IsSpace(word[i])) && (s == [] || IsSpace(s[0]))
    ensures WordLength(word + s) == |word|
  {
    if word == [] {
      assert word + s == s;
    } else {
      assert (word + s)[1..] == word[1..] + s;
      WordOf(word[1..], s);
    }
  }

  lemma SplitBlank(s: seq<Byte>, max: int)
    requires AllSpace(s)
    ensures Split(s, max) == []
  {
  }

  /** One word of a line. */
  lemma SplitStep(gap: seq<Byte>, word: seq<Byte>, rest: seq<Byte>, max: int)
    requires AllSpace(gap) && IsWord(word) && (rest == [] || IsSpace(rest[0]))
    ensures Split(gap + word + rest, max)
         == if max <= 1 then [word + rest] else [word] + if rest == [] then [] else Split(rest[1..], max - 1)
  {
    hide Spaces, WordLength;
    var line := gap + word + rest;
    assert line == gap + (word + rest);
    SpacesOf(gap, word + rest);
    assert line[|gap|..] == word + rest;
    WordOf(word, rest);
    assert rest != [] ==> (word + rest)[|word| + 1..] == rest[1..];
  }

  /** A line without its first byte, when that is white space. */
  lemma LineWithoutSpace(words: seq<seq<Byte>>, gaps: seq<seq<Byte>>, trail: seq<Byte>)
      returns (gaps': seq<seq<Byte>>, trail': seq<Byte>)
    requires Separated(words, gaps, trail) && (if words == [] then trail != [] else gaps[0] != [])
    ensures Line(words, gaps, trail) != [] && IsSpace(Line(words, gaps, trail)[0])
    ensures Separated(words, gaps', trail') && Line(words, gaps', trail') == Line(words, gaps, trail)[1..]
    ensures words != [] ==> trail' == trail && gaps'[1..] == gaps[1..]
  {
    if words == [] {
      gaps', trail' := gaps, trail[1..];
    } else {
      gaps', trail' := gaps[0 := gaps[0][1..]], trail;
      assert gaps'[1..] == gaps[1..];
    }
  }

  /** Splitting undoes joining: fewer words than the limit come back as they were. */
  lemma {:induction false} SplitLine(words: seq<seq<Byte>>, gaps: seq<seq<Byte>>, trail: seq<Byte>, max: int)
    requires Separated(words, gaps, trail) && |words| < max
    ensures Split(Line(words, gaps, trail), max) == words
    decreases |words|
  {
    hide Split;
    if words == [] {
      SplitBlank(trail, max);
    } else {
      var rest := Line(words[1..], gaps[1..], trail);
      assert words == [words[0]] + words[1..];
      if |words| == 1 && trail == [] {
        SplitStep(gaps[0], words[0], rest, max);
      } else {
        var gaps', trail' := LineWithoutSpace(words[1..], gaps[1..], trail);
        SplitStep(gaps[0], words[0], rest, max);
        SplitLine(words[1..], gaps', trail', max - 1);
      }
    }
  }

  lemma OneFurther<T>(s: seq<T>, k: nat)
    requires 2 <= k <= |s|
    ensures s[1..][k - 1..] == s[k..] && s[1..][k - 2] == s[k - 1] && s[..k - 1] == [s[0]] + s[1..][..k - 2]
  {
  }

  /** At the limit, the last parameter is its word and everything after it. */
  lemma {:induction false} SplitLineAtLimit(words: seq<seq<Byte>>, gaps: seq<seq<Byte>>, trail: seq<Byte>, max: nat)
    requires Separated(words, gaps, trail) && 1 <= max <= |words|
    ensures Split(Line(words, gaps, trail), max)
         == words[..max - 1] + [words[max - 1] + Line(words[max..], gaps[max..], trail)]
    decreases max
  {
    hide Split;
    var rest := Line(words[1..], gaps[1..], trail);
    if |words| > 1 || trail != [] {
      var gaps', trail' := LineWithoutSpace(words[1..], gaps[1..], trail);
      SplitStep(gaps[0], words[0], rest, max);
      if max > 1 {
        SplitLineAtLimit(words[1..], gaps', trail, max - 1);
        OneFurther(words, max);
        OneFurther(gaps, max);
        assert gaps'[max - 1..] == gaps'[1..][max - 2..] == gaps[1..][1..][max - 2..] == gaps[1..][max - 1..];
      }
    } else {
      SplitStep(gaps[0], words[0], rest, max);
    }
  }

  // ----- the scanner -----

  /** A line in a buffer, ended by a zero byte at `n`. */
  ghost predicate HoldsLine(b: seq<Byte>, n: nat) {
    n < |b| && b[n] == NUL && NoNul(b[..n])
  }

  method SkipSpaces(buf: array<Byte>, start: nat, ghost n: nat) returns (s: nat)
    requires n < buf.Length && start <= n && buf[n] == NUL && NoNul(buf[start..n])
    ensures start <= s <= n && AllSpace(buf[start..s]) && (s < n ==> !IsSpace(buf[s]))
    ensures s < n <==> buf[s] != NUL
  {
    s := start;
    while buf[s] != NUL && IsSpace(buf[s])
      invariant start <= s <= n && AllSpace(buf[start..s])
      decreases n - s
    {
      s := s + 1;
    }
    assert s < n ==> buf[s] in buf[start..n];
  }

  method SkipWord(buf: array<Byte>, start: nat, ghost n: nat) returns (s: nat)
    requires n < buf.Length && start < n && buf[n] == NUL && NoNul(buf[start..n]) && !IsSpace(buf[start])
    ensures start < s <= n && IsWord(buf[start..s]) && (s < n ==> IsSpace(buf[s]))
    ensures s < n <==> buf[s] != NUL
  {
    s := start;
    assert buf[start] in buf[start..n];
    while buf[s] != NUL && !IsSpace(buf[s])
      invariant start <= s <= n && forall i :: start <= i < s ==> !IsSpace(buf[i])
      invariant s == start ==> buf[s] != NUL && !IsSpace(buf[s])
      decreases n - s
    {
      s := s + 1;
    }
    assert s < n ==> buf[s] in buf[start..n];
  }

  /** Word `w` stands at `p`, ended by a zero byte before `limit`. */
  ghost predicate Stands(b: seq<Byte>, p: int, w: seq<Byte>, limit: nat) {
    0 <= p && p + |w| < limit <= |b| && b[p..p + |w|] == w && b[p + |w|] == NUL && NoNul(w)
  }

  ghost predicate AllStand(b: seq<Byte>, ps: seq<int>, ws: seq<seq<Byte>>, limit: nat) {
    |ps| == |ws| && forall i :: 0 <= i < |ps| ==> Stands(b, ps[i], ws[i], limit)
  }

  lemma OneMoreStands(b: seq<Byte>, ps: seq<int>, ws: seq<seq<Byte>>, limit: nat, p: int, w: seq<Byte>, limit': nat)
    requires AllStand(b, ps, ws, limit) && Stands(b, p, w, limit') && limit <= limit'
    ensures AllStand(b, ps + [p], ws + [w], limit')
  {
  }

  lemma StillStand(b: seq<Byte>, b': seq<Byte>, ps: seq<int>, ws: seq<seq<Byte>>, limit: nat)
    requires AllStand(b, ps, ws, limit) && limit <= |b| == |b'| && b'[..limit] == b[..limit]
    ensures AllStand(b', ps, ws, limit)
  {
  }

  /** The strings at `ps` are `ws`. */
  ghost predicate AreStrings(b: seq<Byte>, ps: seq<int>, ws: seq<seq<Byte>>) {
    |ps| == |ws| && forall i :: 0 <= i < |ps| ==> 0 <= ps[i] < |b| && CStr(b, ps[i]) == ws[i]
  }

  lemma StandingStrings(b: seq<Byte>, ps: seq<int>, ws: seq<seq<Byte>>, limit: nat)
    requires AllStand(b, ps, ws, limit)
    ensures AreStrings(b, ps, ws)
  {
    forall i | 0 <= i < |ps|
      ensures 0 <= ps[i] < |b| && CStr(b, ps[i]) == ws[i]
    {
      assert Stands(b, ps[i], ws[i], limit);
      CStrIs(b, ps[i], ps[i] + |ws[i]|);
    }
  }

  /** The next word of the line, from `a` to `e`, after a gap from `s`. */
  lemma NextWord(line: seq<Byte>, s: nat, a: nat, e: nat, max: int)
    requires s <= a < e <= |line| && AllSpace(line[s..a]) && IsWord(line[a..e]) && (e < |line| ==> IsSpace(line[e]))
    ensures max <= 1 ==> Split(line[s..], max) == [line[a..]]
    ensures max > 1 ==> Split(line[s..], max) == [line[a..e]] + if e == |line| then [] else Split(line[e + 1..], max - 1)
  {
    assert line[s..] == line[s..a] + line[a..e] + line[e..];
    assert line[a..] == line[a..e] + line[e..];
    SplitStep(line[s..a], line[a..e], line[e..], max);
    assert e < |line| ==> line[e..][1..] == line[e + 1..];
  }

  lemma LastWord(line: seq<Byte>, s: nat, a: nat, max: int)
    requires s <= a < |line| && AllSpace(line[s..a]) && !IsSpace(line[a]) && max <= 1
    ensures Split(line[s..], max) == [line[a..]]
  {
  }

  /** The part of the buffer from `s` on is as it was when it held the line. */
  lemma SameTail(b: seq<Byte>, orig: seq<Byte>, n: nat, s: nat, e: nat)
    requires HoldsLine(orig, n) && |b| == |orig| && s <= e <= n && b[s..] == orig[s..]
    ensures b[s..e] == orig[..n][s..e] && b[n] == NUL && NoNul(b[s..n])
    ensures e < n ==> b[e] == orig[..n][e]
  {
    assert b[s..e] == b[s..][..e - s];
    assert orig[s..e] == orig[s..][..e - s];
    assert b[n] == b[s..][n - s];
    assert b[s..n] == b[s..][..n - s] == orig[s..n] == orig[..n][s..];
    assert e < n ==> b[e] == b[s..][e - s];
  }

  /** How one round of the scan ended: nothing left, the rest of the line taken, the last word taken, or a
      word taken and cut off from what follows. */
  datatype Round = Blank | Rest | Last | More

  /** One round: find the next word, note where it starts, and cut it off unless it is the last. */
  method NextParam(buf: array<Byte>, paramv: array<int>, at: nat, s: nat, full: bool, ghost orig: seq<Byte>, ghost n: nat)
    returns (r: Round, s': nat, ghost a: nat)
    requires HoldsLine(orig, n) && s <= n && |orig| == buf.Length && buf[s..] == orig[s..] && at < paramv.Length
    modifies buf, paramv
    ensures s <= a <= n && AllSpace(orig[..n][s..a])
    ensures r.Blank? ==> a == n && paramv[..] == old(paramv[..])
    ensures !r.Blank? ==> a < n && !IsSpace(orig[a]) && paramv[..] == old(paramv[..])[at := a]
    ensures r.Rest? <==> full && !r.Blank?
    ensures r.Last? || r.More? ==> a < s' <= n && IsWord(orig[..n][a..s']) && (r.Last? <==> s' == n)
    ensures r.More? ==> IsSpace(orig[s']) && buf[..] == old(buf[..])[s' := NUL]
    ensures !r.More? ==> buf[..] == old(buf[..])
  {
    SameTail(buf[..], orig, n, s, n);
    s' := SkipSpaces(buf, s, n);
    SameTail(buf[..], orig, n, s, s');
    a := s';
    if buf[s'] == NUL {
      return Blank, s', a;
    }
    paramv[at] := s';
    if full {
      return Rest, s', a;
    }
    assert buf[s'..n] == buf[s..n][s' - s..];
    s' := SkipWord(buf, s', n);
    SameTail(buf[..], orig, n, s, s');
    assert orig[..n][a..s'] == orig[..n][s..s'][a - s..] == buf[s..s'][a - s..] == buf[a..s'];
    if buf[s'] == NUL {
      return Last, s', a;
    }
    ghost var b := buf[..];
    buf[s'] := NUL;
    assert buf[..] == b[s' := NUL];
    return More, s', a;
  }

  lemma StandsAt(b: seq<Byte>, orig: seq<Byte>, n: nat, s: nat, a: nat, e: nat)
    requires HoldsLine(orig, n) && |b| == |orig| && s <= a < e <= n && b[s..] == orig[s..]
    ensures Stands(b[e := NUL], a, orig[..n][a..e], e + 1)
    ensures e == n ==> Stands(b, a, orig[..n][a..], n + 1)
  {
    SameTail(b, orig, n, s, e);
    SameTail(b, orig, n, s, a);
    assert b[a..e] == b[s..e][a - s..];
    assert orig[..n][a..e] == orig[..n][s..e][a - s..];
    assert b[e := NUL][a..e] == b[a..e];
    forall i | 0 <= i < e - a
      ensures orig[..n][a..e][i] != NUL
    {
      assert orig[..n][a..e][i] == orig[..n][a + i];
    }
    if e == n {
      assert orig[..n][a..] == orig[..n][a..e] && b[e := NUL] == b;
    }
  }

  lemma TailAfter(b: seq<Byte>, orig: seq<Byte>, s: nat, e: nat)
    requires |b| == |orig| && s <= e < |b| && b[s..] == orig[s..]
    ensures b[e := NUL][e + 1..] == orig[e + 1..]
  {
  }

  /** The words found so far and those of the rest of the line make up the whole. */
  ghost predicate Progress(line: seq<Byte>, max: int, found: seq<seq<Byte>>, s: nat) {
    s <= |line| && Split(line, max) == found + Split(line[s..], max - |found|)
  }

  lemma ProgressBlank(line: seq<Byte>, max: int, found: seq<seq<Byte>>, s: nat)
    requires Progress(line, max, found, s) && AllSpace(line[s..|line|])
    ensures Split(line, max) == found
  {
    assert line[s..|line|] == line[s..];
    SplitBlank(line[s..], max - |found|);
  }

  lemma ProgressRest(line: seq<Byte>, max: int, found: seq<seq<Byte>>, s: nat, a: nat)
    requires Progress(line, max, found, s) && s <= a < |line| && AllSpace(line[s..a]) && !IsSpace(line[a])
    requires max - |found| <= 1
    ensures Split(line, max) == found + [line[a..]]
  {
    LastWord(line, s, a, max - |found|);
  }

  lemma ProgressLast(line: seq<Byte>, max: int, found: seq<seq<Byte>>, s: nat, a: nat)
    requires Progress(line, max, found, s) && s <= a < |line| && AllSpace(line[s..a]) && IsWord(line[a..|line|])
    requires max - |found| > 1
    ensures Split(line, max) == found + [line[a..]]
  {
    hide Split, AllSpace, IsWord;
    NextWord(line, s, a, |line|, max - |found|);
    assert line[a..|line|] == line[a..] && [line[a..]] + [] == [line[a..]];
  }

  lemma ProgressWord(line: seq<Byte>, max: int, found: seq<seq<Byte>>, s: nat, a: nat, e: nat)
    requires Progress(line, max, found, s) && s <= a < e < |line| && AllSpace(line[s..a]) && IsWord(line[a..e])
    requires IsSpace(line[e]) && max - |found| > 1
    ensures Progress(line, max, found + [line[a..e]], e + 1)
  {
    hide Split, AllSpace, IsWord;
    NextWord(line, s, a, e, max - |found|);
    var rest := Split(line[e + 1..], max - |found| - 1);
    assert found + ([line[a..e]] + rest) == (found + [line[a..e]]) + rest;
  }

  /** State of the scan at position `s`: `found` has been cut off and starts at `ps`; the rest is untouched. */
  ghost predicate Scan(orig: seq<Byte>, n: nat, max: int, b: seq<Byte>, ps: seq<int>, found: seq<seq<Byte>>, s: nat) {
    && HoldsLine(orig, n) && |b| == |orig| && s <= n && b[s..] == orig[s..]
    && AllStand(b, ps, found, s) && Progress(orig[..n], max, found, s)
  }

  lemma ScanStart(orig: seq<Byte>, n: nat, max: int)
    requires HoldsLine(orig, n)
    ensures Scan(orig, n, max, orig, [], [], 0)
  {
  }

  lemma ScanFacts(orig: seq<Byte>, n: nat, max: int, b: seq<Byte>, ps: seq<int>, found: seq<seq<Byte>>, s: nat)
    requires Scan(orig, n, max, b, ps, found, s)
    ensures HoldsLine(orig, n) && s <= n < |b| == |orig| && b[s..] == orig[s..]
  {
  }

  lemma ScanMore(orig: seq<Byte>, n: nat, max: int, b: seq<Byte>, ps: seq<int>, found: seq<seq<Byte>>, s: nat, a: nat, e: nat)
    requires Scan(orig, n, max, b, ps, found, s) && max - |found| > 1
    requires s <= a < e < n && AllSpace(orig[..n][s..a]) && IsWord(orig[..n][a..e]) && IsSpace(orig[e])
    ensures Scan(orig, n, max, b[e := NUL], ps + [a], found + [orig[..n][a..e]], e + 1)
  {
    var line, b' := orig[..n], b[e := NUL];
    hide AllStand, Progress, HoldsLine, Stands, AllSpace, IsWord;
    ProgressWord(line, max, found, s, a, e);
    StandsAt(b, orig, n, s, a, e);
    TailAfter(b, orig, s, e);
    StillStand(b, b', ps, found, s);
    OneMoreStands(b', ps, found, s, a, line[a..e], e + 1);
  }

  lemma ScanBlank(orig: seq<Byte>, n: nat, max: int, b: seq<Byte>, ps: seq<int>, found: seq<seq<Byte>>, s: nat)
    requires Scan(orig, n, max, b, ps, found, s) && AllSpace(orig[..n][s..n])
    ensures AreStrings(b, ps, Split(orig[..n], max))
  {
    ProgressBlank(orig[..n], max, found, s);
    StandingStrings(b, ps, found, s);
  }

  lemma ScanLast(orig: seq<Byte>, n: nat, max: int, b: seq<Byte>, ps: seq<int>, found: seq<seq<Byte>>, s: nat, a: nat)
    requires Scan(orig, n, max, b, ps, found, s) && s <= a < n && AllSpace(orig[..n][s..a]) && !IsSpace(orig[a])
    requires max - |found| <= 1 || IsWord(orig[..n][a..n])
    ensures AreStrings(b, ps + [a], Split(orig[..n], max))
  {
    var line := orig[..n];
    hide AllStand, Progress, HoldsLine, Stands, AllSpace, IsWord, AreStrings;
    if max - |found| <= 1 {
      ProgressRest(line, max, found, s, a);
    } else {
      ProgressLast(line, max, found, s, a);
    }
    StandsAt(b, orig, n, s, a, n);
    OneMoreStands(b, ps, found, s, a, line[a..], n + 1);
    StandingStrings(b, ps + [a], found + [line[a..]], n + 1);
  }

  /** Split the line in `buf` in place: parameter i starts at `paramv[from + i]`. */
  method MkParam(buf: array<Byte>, paramv: array<int>, from: nat, max: int, ghost n: nat) returns (paramc: nat)
    requires HoldsLine(buf[..], n) && from + (if max > 1 then max else 1) <= paramv.Length
    modifies buf, paramv
    ensures paramc <= (if max > 1 then max else 1)
    ensures AreStrings(buf[..], paramv[from..from + paramc], Split(old(buf[..])[..n], max))
    ensures paramv[..] == Placed(old(paramv[..]), from, paramv[from..from + paramc])
  {
    hide *;
    ghost var orig, pv := buf[..], paramv[..];
    ghost var found: seq<seq<Byte>>, ps: seq<int> := [], [];
    paramc := 0;
    var s := 0;
    ScanStart(orig, n, max);
    PlacedNothing(pv, from);
    while true
      invariant 0 <= s && Scan(orig, n, max, buf[..], ps, found, s)
      invariant paramc == |found| == |ps| && (paramc == 0 || paramc < max)
      invariant paramv[..] == Placed(pv, from, ps)
      decreases n - s
    {
      ghost var b := buf[..];
      ghost var a;
      ScanFacts(orig, n, max, b, ps, found, s);
      var r, e;
      r, e, a := NextParam(buf, paramv, from + paramc, s, paramc + 1 >= max, orig, n);
      if r.Blank? {
        ScanBlank(orig, n, max, b, ps, found, s);
        break;
      }
      PlacedOne(pv, from, ps, a);
      paramc := paramc + 1;
      if !r.More? {
        ScanLast(orig, n, max, b, ps, found, s, a);
        ps := ps + [a];
        break;
      }
      ScanMore(orig, n, max, b, ps, found, s, a, e);
      ps, found := ps + [a], found + [orig[..n][a..e]];
      s := e + 1;
    }
    PlacedPart(pv, from, ps);
  }
}
