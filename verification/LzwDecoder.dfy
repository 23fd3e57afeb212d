/**
 The LZW decoder as hwinit/lzw.c writes it: a node table held as parent links, codes read across
 32-bit words, and phrases emitted by reversing and restoring the links of one chain.
 */
module LzwDecoder {
  import opened Bits
  import opened Seqs
  import opened LzwMeaning
  import opened LzwStream

  // ----- chains of parent links -----

  /** Links lead to smaller nodes, so every chain ends at a root, whose link is -1. */
  predicate Linked(par: seq<int>, count: nat) {
    count <= |par| && forall n :: 0 <= n < count ==> -1 <= par[n] < n
  }

  /** From a node to its root. */
  function Chain(par: seq<int>, count: nat, n: nat): (ch: seq<nat>)
    requires Linked(par, count) && n < count
    ensures |ch| > 0 && ch[0] == n && ch[|ch| - 1] < count && par[ch[|ch| - 1]] == -1
    ensures forall i :: 0 <= i < |ch| ==> ch[i] < count
    ensures forall i {:trigger par[ch[i]]} :: 0 <= i < |ch| - 1 ==> par[ch[i]] == ch[i + 1]
    ensures forall i, j :: 0 <= i < j < |ch| ==> ch[j] < ch[i]
    decreases n
  {
    if par[n] < 0 then [n] else [n] + Chain(par, count, par[n])
  }

  /** Link table with the first `t` links of the chain reversed. */
  ghost predicate Reversed(par: seq<int>, orig: seq<int>, ch: seq<nat>, t: nat)
    requires |par| == |orig| && t <= |ch| && forall i :: 0 <= i < |ch| ==> ch[i] < |orig|
  {
    && (forall i {:trigger par[ch[i]]} :: 0 <= i < t ==> par[ch[i]] == if i == 0 then -1 else ch[i - 1])
    && (forall i {:trigger par[ch[i]]} :: t <= i < |ch| ==> par[ch[i]] == orig[ch[i]])
    && (forall n :: 0 <= n < |par| && n !in ch ==> par[n] == orig[n])
  }

  /** The symbols of a chain, root first. */
  function Spelled(sym: seq<Byte>, ch: seq<nat>, from: nat): (s: seq<Byte>)
    requires from <= |ch| && forall i :: 0 <= i < |ch| ==> ch[i] < |sym|
    ensures |s| == |ch| - from
    decreases |ch| - from
  {
    if from == |ch| then [] else Spelled(sym, ch, from + 1) + [sym[ch[from]]]
  }

  lemma SpelledStep(sym: seq<Byte>, ch: seq<nat>, t: nat)
    requires t < |ch| && forall i :: 0 <= i < |ch| ==> ch[i] < |sym|
    ensures Spelled(sym, ch, t) == Spelled(sym, ch, t + 1) + [sym[ch[t]]]
  {
  }

  /** A chain: distinct nodes, each linked to the next. */
  ghost predicate IsChain(par: seq<int>, ch: seq<nat>) {
    && |ch| > 0
    && (forall i :: 0 <= i < |ch| ==> ch[i] < |par|)
    && (forall i {:trigger par[ch[i]]} :: 0 <= i < |ch| ==> par[ch[i]] == if i == |ch| - 1 then -1 else ch[i + 1])
    && (forall i, j :: 0 <= i < j < |ch| ==> ch[j] != ch[i])
  }

  lemma ChainIsChain(par: seq<int>, count: nat, n: nat)
    requires Linked(par, count) && n < count
    ensures IsChain(par, Chain(par, count, n))
  {
  }

  lemma TurnLink(par: seq<int>, orig: seq<int>, ch: seq<nat>, t: nat)
    requires |par| == |orig| && IsChain(orig, ch) && t < |ch| && Reversed(par, orig, ch, t)
    ensures ch[t] < |par| && par[ch[t]] == if t == |ch| - 1 then -1 else ch[t + 1]
    ensures Reversed(par[ch[t] := if t == 0 then -1 else ch[t - 1]], orig, ch, t + 1)
  {
  }

  lemma TurnLinkBack(par: seq<int>, orig: seq<int>, ch: seq<nat>, t: nat)
    requires |par| == |orig| && IsChain(orig, ch) && t < |ch| && Reversed(par, orig, ch, t + 1)
    ensures ch[t] < |par| && par[ch[t]] == if t == 0 then -1 else ch[t - 1]
    ensures Reversed(par[ch[t] := orig[ch[t]]], orig, ch, t)
  {
  }

  lemma ChainBounds(par: seq<int>, ch: seq<nat>)
    requires IsChain(par, ch)
    ensures |ch| > 0 && forall i :: 0 <= i < |ch| ==> ch[i] < |par|
  {
  }

  lemma ChainLink(par: seq<int>, ch: seq<nat>, t: nat)
    requires IsChain(par, ch) && t < |ch|
    ensures ch[t] < |par| && par[ch[t]] == if t == |ch| - 1 then -1 else ch[t + 1]
  {
  }

  // ----- the two walks -----

  /** Walk up to the root, turning each link round. */
  method WalkBack(parent: array<int>, c: nat, ghost ch: seq<nat>) returns (head: nat)
    requires IsChain(parent[..], ch) && c == ch[0]
    modifies parent
    ensures head == ch[|ch| - 1] && Reversed(parent[..], old(parent[..]), ch, |ch|)
  {
    ghost var orig := parent[..];
    ghost var t := 0;
    var i, j := -1, c;
    while true
      invariant 0 <= t < |ch| && j == ch[t]
      invariant i == if t == 0 then -1 else ch[t - 1]
      invariant Reversed(parent[..], orig, ch, t)
      decreases |ch| - t
    {
      hide Reversed, IsChain;
      ghost var par := parent[..];
      TurnLink(par, orig, ch, t);
      var k := parent[j];
      parent[j] := i;
      assert parent[..] == par[j := i];
      if k < 0 {
        return j;
      }
      i, j := j, k;
      t := t + 1;
    }
  }

  /** Walk back down, emitting symbols and turning each link back. */
  method WalkForward(parent: array<int>, symbol: array<Byte>, dst: array<Byte>, d: nat, head: nat,
                     ghost orig: seq<int>, ghost ch: seq<nat>) returns (d': nat)
    requires symbol != dst && symbol.Length >= parent.Length == |orig|
    requires IsChain(orig, ch) && head == ch[|ch| - 1] && Reversed(parent[..], orig, ch, |ch|)
    requires d + |ch| <= dst.Length
    modifies parent, dst
    ensures parent[..] == orig
    ensures d' == d + |ch|
    ensures dst[..] == Placed(old(dst[..]), d, Spelled(symbol[..], ch, 0))
  {
    hide *;
    ghost var dst0 := dst[..];
    ghost var t, out := |ch| - 1, [];
    ChainBounds(orig, ch);
    ChainLink(orig, ch, t);
    PlacedNothing(dst0, d);
    assert Spelled(symbol[..], ch, |ch|) == [];
    var j, k := head, -1;
    d' := d;
    while true
      invariant 0 <= t < |ch| && j == ch[t] && j < |orig| && k == orig[j]
      invariant Reversed(parent[..], orig, ch, t + 1)
      invariant out == Spelled(symbol[..], ch, t + 1)
      invariant d' == d + |out| && dst[..] == Placed(dst0, d, out)
      decreases t
    {
      SpelledStep(symbol[..], ch, t);
      PlacedOne(dst0, d, out, symbol[j]);
      ghost var dst1 := dst[..];
      dst[d'] := symbol[j];
      assert dst[..] == dst1[d' := symbol[j]];
      d' := d' + 1;
      out := out + [symbol[j]];
      ghost var par := parent[..];
      TurnLinkBack(par, orig, ch, t);
      var i := parent[j];
      parent[j] := k;
      assert parent[..] == par[j := k];
      if i < 0 {
        break;
      }
      k, j := j, i;
      t := t - 1;
      ChainLink(orig, ch, t);
    }
    RestoredIsOriginal(parent[..], orig, ch);
  }

  lemma RestoredIsOriginal(par: seq<int>, orig: seq<int>, ch: seq<nat>)
    requires |par| == |orig| && (forall i :: 0 <= i < |ch| ==> ch[i] < |orig|) && Reversed(par, orig, ch, 0)
    ensures par == orig
  {
  }

  // ----- the table of a code sequence -----

  /** The node table after some codes: `links` nodes added, the symbols of `fixed` of them known. */
  ghost predicate TableOf(par: seq<int>, sym: seq<Byte>, cs: seq<nat>, links: nat, fixed: nat) {
    && Legal(cs) && fixed <= links <= |cs| && (fixed == 0 || fixed < |cs|)
    && FIRST + links <= |par| == |sym|
    && (forall n :: 0 <= n < FIRST ==> par[n] == -1)
    && (forall n :: 0 <= n < END ==> sym[n] == n)
    && (forall n :: FIRST <= n < FIRST + links ==> par[n] == cs[n - FIRST])
    && (forall n :: FIRST <= n < FIRST + fixed ==> sym[n] == Head(cs, cs[n - FIRST + 1]))
  }

  lemma TableSizes(par: seq<int>, sym: seq<Byte>, cs: seq<nat>, links: nat, fixed: nat)
    requires TableOf(par, sym, cs, links, fixed)
    ensures Legal(cs) && FIRST + links <= |par| == |sym|
  {
  }

  lemma TableLinked(par: seq<int>, sym: seq<Byte>, cs: seq<nat>, links: nat, fixed: nat)
    requires TableOf(par, sym, cs, links, fixed)
    ensures Linked(par, FIRST + links)
  {
  }

  lemma {:induction false} RootIsHead(par: seq<int>, sym: seq<Byte>, cs: seq<nat>, links: nat, fixed: nat, n: nat)
    requires TableOf(par, sym, cs, links, fixed) && Linked(par, FIRST + links)
    requires n < END || FIRST <= n < FIRST + links
    ensures var ch := Chain(par, FIRST + links, n); ch[|ch| - 1] == Head(cs, n)
    decreases n
  {
    if n >= END {
      RootIsHead(par, sym, cs, links, fixed, cs[n - FIRST]);
    }
  }

  lemma {:induction false} SpelledShift(sym: seq<Byte>, n: nat, ch: seq<nat>, k: nat)
    requires k <= |ch| && n < |sym| && forall i :: 0 <= i < |ch| ==> ch[i] < |sym|
    ensures Spelled(sym, [n] + ch, k + 1) == Spelled(sym, ch, k)
    decreases |ch| - k
  {
    if k < |ch| {
      SpelledShift(sym, n, ch, k + 1);
    }
  }

  lemma SpelledRoot(sym: seq<Byte>, n: nat)
    requires n < |sym|
    ensures Spelled(sym, [n], 0) == [sym[n]]
  {
  }

  lemma SpelledCons(sym: seq<Byte>, n: nat, ch: seq<nat>)
    requires n < |sym| && forall i :: 0 <= i < |ch| ==> ch[i] < |sym|
    ensures Spelled(sym, [n] + ch, 0) == Spelled(sym, ch, 0) + [sym[n]]
  {
    SpelledShift(sym, n, ch, 0);
  }

  /** What a walk down a chain spells is the phrase of the code. */
  lemma {:induction false} SpelledIsPhrase(par: seq<int>, sym: seq<Byte>, cs: seq<nat>, links: nat, fixed: nat, n: nat)
    requires TableOf(par, sym, cs, links, fixed) && Linked(par, FIRST + links)
    requires n < END || FIRST <= n < FIRST + fixed
    ensures Spelled(sym, Chain(par, FIRST + links, n), 0) == Phrase(cs, n)
    decreases n
  {
    hide Spelled;
    if n < END {
      SpelledRoot(sym, n);
    } else {
      SpelledIsPhrase(par, sym, cs, links, fixed, cs[n - FIRST]);
      SpelledCons(sym, n, Chain(par, FIRST + links, cs[n - FIRST]));
    }
  }

  // ----- reading codes -----

  /** Two adjacent words seen through a 32-bit window. */
  lemma WindowBits(w0: Word, w1: Word, k: nat)
    requires 0 < k < 32
    ensures BitsOf(Or(Shr(w0, k), Shl(w1, 32 - k))) == BitsOf(w0)[k..] + BitsOf(w1)[..k]
  {
    hide BitsOf, Shr, Shl;
    ShrBits(w0, k);
    ShlBits(w1, 32 - k);
    var a, b := Shr(w0, k), Shl(w1, 32 - k);
    forall i | 0 <= i < 32
      ensures BitsOf(Or(a, b))[i] == (BitsOf(w0)[k..] + BitsOf(w1)[..k])[i]
    {
      OrBits(a, b, i);
    }
  }

  lemma SliceOfSlice<T>(s: seq<T>, a: nat, n: nat, i: nat, k: nat, pad: seq<T>)
    requires a + n <= |s| && i + k <= n
    ensures (s[a..a + n][i..] + pad)[..k] == s[a + i..a + i + k]
  {
  }

  lemma SliceAcross<T>(s: seq<T>, a: nat, n: nat, i: nat, k: nat)
    requires a + n + n <= |s| && i <= n <= i + k && k <= n
    ensures (s[a..a + n][i..] + s[a + n..a + n + n][..i])[..k] == s[a + i..a + i + k]
  {
    assert s[a..a + n][i..] == s[a + i..a + n];
    assert s[a + n..a + n + n][..i] == s[a + n..a + n + i];
    assert s[a + i..a + n] + s[a + n..a + n + i] == s[a + i..a + n + i];
  }

  lemma CodeInOneWord(stream: seq<bool>, base: nat, w: Word, bitpos: nat, bits: nat)
    requires base + 32 <= |stream| && bitpos + bits < 32
    requires stream[base..base + 32] == BitsOf(w)
    ensures BitsOf(Shr(w, bitpos))[..bits] == stream[base + bitpos..base + bitpos + bits]
  {
    hide BitsOf, Shr, Zeros;
    ShrBits(w, bitpos);
    SliceOfSlice(stream, base, 32, bitpos, bits, Zeros(bitpos));
  }

  lemma CodeAcrossWords(stream: seq<bool>, base: nat, w0: Word, w1: Word, bitpos: nat, bits: nat)
    requires base + 64 <= |stream| && bitpos < 32 && bits <= 30 && bitpos + bits >= 32
    requires stream[base..base + 32] == BitsOf(w0) && stream[base + 32..base + 64] == BitsOf(w1)
    ensures BitsOf(Or(Shr(w0, bitpos), Shl(w1, 32 - bitpos)))[..bits] == stream[base + bitpos..base + bitpos + bits]
  {
    hide BitsOf, Shr, Shl, Or;
    WindowBits(w0, w1, bitpos);
    SliceAcross(stream, base, 32, bitpos, bits);
  }

  /** Read `bits` bits at bit `bitpos` of word `s`. */
  method ReadCode(src: array<Word>, s: nat, bitpos: nat, bits: nat) returns (c: Word, s': nat, bitpos': nat)
    requires bitpos < 32 && 0 < bits <= 30
    requires 32 * s + bitpos + bits < 32 * src.Length
    ensures bitpos' < 32 && 32 * s' + bitpos' == 32 * s + bitpos + bits
    ensures c == FromBits(BitStream(src[..])[32 * s + bitpos..32 * s + bitpos + bits])
  {
    hide BitsOf, Shr, Shl, Or, And, FromBits, BitStream;
    ghost var stream := BitStream(src[..]);
    BitStreamAt(src[..], s);
    c := Shr(src[s], bitpos);
    s', bitpos' := s, bitpos + bits;
    if bitpos' >= 32 {
      bitpos' := bitpos' - 32;
      s' := s' + 1;
      c := Or(c, Shl(src[s'], bits - bitpos'));
      BitStreamAt(src[..], s');
      CodeAcrossWords(stream, 32 * s, src[s], src[s'], bitpos, bits);
    } else {
      CodeInOneWord(stream, 32 * s, src[s], bitpos, bits);
    }
    MaskIsWord(bits);
    MaskedValue(c, Pow2(bits) - 1, bits);
    c := And(c, Pow2(bits) - 1);
  }

  // ----- the decoder -----

  method InitNodes(parent: array<int>, symbol: array<Byte>)
    requires FIRST <= parent.Length == symbol.Length
    modifies parent, symbol
    ensures TableOf(parent[..], symbol[..], [], 0, 0)
  {
    var i := 0;
    while i < FIRST
      invariant 0 <= i <= FIRST
      invariant forall n :: 0 <= n < i ==> parent[n] == -1 && symbol[n] == n % 256
    {
      symbol[i] := i % 256;
      parent[i] := -1;
      i := i + 1;
    }
  }

  /** How many added nodes have their symbol: all but the last. */
  function FixedNodes(links: nat): nat {
    if links == 0 then 0 else links - 1
  }

  /** The table of some codes is also the table of those codes and one more, not yet handled. */
  lemma TableMore(par: seq<int>, sym: seq<Byte>, before: seq<nat>, cs: seq<nat>)
    requires TableOf(par, sym, before, |before|, FixedNodes(|before|)) && Legal(cs) && before <= cs
    ensures TableOf(par, sym, cs, |before|, FixedNodes(|before|))
  {
    hide Head;
    forall n | FIRST <= n < FIRST + FixedNodes(|before|)
      ensures sym[n] == Head(cs, cs[n - FIRST + 1])
    {
      HeadStable(before, cs, before[n - FIRST + 1]);
    }
  }

  /** Symbols after the waiting node, if any, is given the first symbol of the last code. */
  ghost function WithFix(sym: seq<Byte>, cs: seq<nat>): (r: seq<Byte>)
    requires cs != [] && Legal(cs) && END + |cs| <= |sym|
    ensures |r| == |sym|
  {
    if |cs| == 1 then sym else sym[END + |cs| - 1 := Head(cs, cs[|cs| - 1])]
  }

  lemma TableFixed(par: seq<int>, sym: seq<Byte>, cs: seq<nat>)
    requires cs != [] && TableOf(par, sym, cs, |cs| - 1, FixedNodes(|cs| - 1))
    ensures TableOf(par, WithFix(sym, cs), cs, |cs| - 1, |cs| - 1)
  {
  }

  /** The chain of the last code ends at the node of its first symbol. */
  lemma ChainOfCode(par: seq<int>, sym: seq<Byte>, cs: seq<nat>)
    requires cs != [] && TableOf(par, sym, cs, |cs| - 1, FixedNodes(|cs| - 1))
    ensures Linked(par, END + |cs|)
    ensures var ch := Chain(par, END + |cs|, cs[|cs| - 1]);
            && IsChain(par, ch) && ch[|ch| - 1] == Head(cs, cs[|cs| - 1]) == sym[ch[|ch| - 1]]
  {
    var c := cs[|cs| - 1];
    assert c != END && c < END + |cs|;
    TableLinked(par, sym, cs, |cs| - 1, FixedNodes(|cs| - 1));
    ChainIsChain(par, END + |cs|, c);
    RootIsHead(par, sym, cs, |cs| - 1, FixedNodes(|cs| - 1), c);
  }

  /** With the waiting node fixed, that chain spells the phrase of the code. */
  lemma PhraseOfCode(par: seq<int>, sym: seq<Byte>, cs: seq<nat>)
    requires cs != [] && TableOf(par, sym, cs, |cs| - 1, FixedNodes(|cs| - 1)) && Linked(par, END + |cs|)
    ensures TableOf(par, WithFix(sym, cs), cs, |cs| - 1, |cs| - 1)
    ensures Spelled(WithFix(sym, cs), Chain(par, END + |cs|, cs[|cs| - 1]), 0) == Phrase(cs, cs[|cs| - 1])
  {
    TableFixed(par, sym, cs);
    SpelledIsPhrase(par, WithFix(sym, cs), cs, |cs| - 1, |cs| - 1, cs[|cs| - 1]);
  }

  /** Give the node that waits for its symbol, if any, the symbol of `head`. */
  method FixNode(symbol: array<Byte>, fix: int, head: nat, ghost cs: seq<nat>)
    requires cs != [] && Legal(cs) && END + |cs| <= symbol.Length
    requires fix == if |cs| == 1 then -1 else END + |cs| - 1
    requires head < symbol.Length && symbol[head] == Head(cs, cs[|cs| - 1])
    modifies symbol
    ensures symbol[..] == WithFix(old(symbol[..]), cs)
  {
    if fix >= 0 {
      symbol[fix] := symbol[head];
    }
  }

  /** Complete the node waiting for its symbol and emit the phrase of `c`, the last of the codes `cs`. */
  method Emit(parent: array<int>, symbol: array<Byte>, dst: array<Byte>, d: nat, c: nat, fix: int,
              ghost cs: seq<nat>) returns (d': nat)
    requires symbol != dst && cs != [] && c == cs[|cs| - 1]
    requires TableOf(parent[..], symbol[..], cs, |cs| - 1, FixedNodes(|cs| - 1))
    requires fix == if |cs| == 1 then -1 else END + |cs| - 1
    requires d + |Phrase(cs, c)| <= dst.Length
    modifies parent, symbol, dst
    ensures parent[..] == old(parent[..])
    ensures TableOf(parent[..], symbol[..], cs, |cs| - 1, |cs| - 1)
    ensures d' == d + |Phrase(cs, c)|
    ensures dst[..] == Placed(old(dst[..]), d, Phrase(cs, c))
  {
    hide *;
    ghost var par, sym := parent[..], symbol[..];
    TableSizes(par, sym, cs, |cs| - 1, FixedNodes(|cs| - 1));
    ChainOfCode(par, sym, cs);
    PhraseOfCode(par, sym, cs);
    ghost var ch := Chain(par, END + |cs|, c);
    var j := WalkBack(parent, c, ch);
    FixNode(symbol, fix, j, cs);
    d' := WalkForward(parent, symbol, dst, d, j, par, ch);
  }

  lemma AddNode(par: seq<int>, sym: seq<Byte>, cs: seq<nat>)
    requires cs != [] && TableOf(par, sym, cs, |cs| - 1, |cs| - 1) && END + |cs| < |par|
    ensures TableOf(par[END + |cs| := cs[|cs| - 1]], sym, cs, |cs|, FixedNodes(|cs|))
  {
  }

  lemma StartWidth()
    ensures Width(FIRST) == 9
  {
  }

  lemma EmptyText()
    ensures Legal([]) && Text([]) == []
  {
  }

  /** Codes of an input buffer. */
  ghost function Codes(src: seq<Word>): Parsed {
    Parse(BitStream(src), 0, [])
  }

  /** The space that decoding needs. */
  ghost predicate Fits(p: Parsed, nodes: nat, room: nat)
    requires Legal(p.codes)
  {
    FIRST + |p.codes| <= nodes && FIRST + |p.codes| <= Pow2(30) && |Text(p.codes)| <= room
  }

  /** A stream that is not cut short has a next code, of at most 30 bits. */
  lemma NextIsReadable(stream: seq<bool>, pos: nat, cs: seq<nat>, nodes: nat, room: nat)
    requires Legal(cs) && !Parse(stream, pos, cs).Truncated? && Fits(Parse(stream, pos, cs), nodes, room)
    ensures 9 <= Width(FIRST + |cs|) <= 30 && pos + Width(FIRST + |cs|) < |stream|
  {
    WidthLeast(FIRST + |cs|);
    WidthBounded(FIRST + |cs|, 30);
  }

  /** What the next code `c` says about the rest of the stream. */
  lemma NextCode(stream: seq<bool>, pos: nat, cs: seq<nat>, next: nat, c: nat)
    requires Legal(cs) && next == pos + Width(FIRST + |cs|) < |stream| && c == FromBits(stream[pos..next])
    ensures c >= FIRST + |cs| ==> Parse(stream, pos, cs) == Corrupt(cs)
    ensures c == END ==> Parse(stream, pos, cs) == Finished(cs)
    ensures c < FIRST + |cs| && c != END ==>
              Legal(cs + [c]) && Parse(stream, next, cs + [c]) == Parse(stream, pos, cs)
  {
    hide Parse, Width, FromBits, ToBits, Legal;
    ToBitsFromBits(stream[pos..next]);
    ParseStep(stream, pos, cs, c);
  }

  lemma NextFits(p: Parsed, before: seq<nat>, c: nat, cs: seq<nat>, nodes: nat, room: nat)
    requires Legal(before) && Legal(cs) && cs == before + [c] && Legal(p.codes) && cs <= p.codes
    requires Fits(p, nodes, room)
    ensures c == cs[|cs| - 1] && Text(cs) == Text(before) + Phrase(cs, c)
    ensures |Text(cs)| <= room && FIRST + |cs| <= nodes
  {
    assert c == cs[|before|];
    OutputStable(before, cs, |before|);
    TextPrefix(cs, p.codes);
  }

  /** Decode `src` into `dst`.  The result is the number of bytes written, or -1 for a code that is
      not in the dictionary. */
  method Decode(parent: array<int>, symbol: array<Byte>, src: array<Word>, dst: array<Byte>) returns (r: int)
    requires parent.Length == symbol.Length && symbol != dst
    requires !Codes(src[..]).Truncated? && Fits(Codes(src[..]), parent.Length, dst.Length)
    modifies parent, symbol, dst
    ensures var p := Codes(old(src[..]));
            && r == (if p.Finished? then |Text(p.codes)| else -1)
            && dst[..] == Placed(old(dst[..]), 0, Text(p.codes))
  {
    StartWidth();
    hide Width, FromBits, Output, Text, Pow2, Phrase, TableOf, Parse, BitStream, Legal, Head, Placed;
    ghost var stream := BitStream(src[..]);
    ghost var all := Codes(src[..]);
    InitNodes(parent, symbol);
    var fix, count, bits, s, bitpos, d := -1, FIRST, 9, 0, 0, 0;
    ghost var cs: seq<nat> := [];
    ghost var dst0 := dst[..];
    EmptyText();
    PlacedNothing(dst0, 0);
    while true
      invariant Legal(cs) && count == FIRST + |cs| && fix == (if cs == [] then -1 else count - 1)
      invariant bits == Width(count) && 0 <= s && 0 <= bitpos < 32
      invariant 32 * s + bitpos == BitsRead(|cs|) <= |stream| && Parse(stream, 32 * s + bitpos, cs) == all
      invariant TableOf(parent[..], symbol[..], cs, |cs|, FixedNodes(|cs|))
      invariant d == |Text(cs)| <= dst.Length && dst[..] == Placed(dst0, 0, Text(cs))
      decreases |stream| - (32 * s + bitpos)
    {
      ghost var pos := 32 * s + bitpos;
      NextIsReadable(stream, pos, cs, parent.Length, dst.Length);
      WidthStep(count);
      var c;
      c, s, bitpos := ReadCode(src, s, bitpos, bits);
      NextCode(stream, pos, cs, pos + bits, c);
      if c >= count {
        return -1;
      }
      if c == END {
        return d;
      }
      ghost var before := cs;
      cs := cs + [c];
      NextFits(all, before, c, cs, parent.Length, dst.Length);
      TableMore(parent[..], symbol[..], before, cs);
      d := Emit(parent, symbol, dst, d, c, fix, cs);
      PlacedAfter(dst0, Text(before), Phrase(cs, c));
      AddNode(parent[..], symbol[..], cs);
      fix := count;
      parent[count] := c;
      count := count + 1;
      if count > Pow2(bits) {
        bits := bits + 1;
      }
    }
  }
}
