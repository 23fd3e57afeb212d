/**
 The bit stream of LZW codes (hwinit/lzw.c): codes of growing width, packed least significant bit
 first into 32-bit words and ended by code 256.
 */
module LzwStream {
  import opened Bits
  import opened LzwMeaning

  function WidthFrom(count: nat, w: nat): nat
    decreases if count <= Pow2(w) then 0 else count - Pow2(w)
  {
    if count <= Pow2(w) then w else WidthFrom(count, w + 1)
  }

  /** Width of the next code when the dictionary holds `count` nodes. */
  function Width(count: nat): nat {
    WidthFrom(count, 9)
  }

  lemma {:induction false} WidthFromLeast(count: nat, w: nat)
    requires w >= 1 && Pow2(w - 1) < count
    ensures WidthFrom(count, w) >= w
    ensures Pow2(WidthFrom(count, w) - 1) < count <= Pow2(WidthFrom(count, w))
    decreases if count <= Pow2(w) then 0 else count - Pow2(w)
  {
    if count > Pow2(w) {
      WidthFromLeast(count, w + 1);
    }
  }

  /** Every node number fits the width, and no smaller width would do. */
  lemma WidthLeast(count: nat)
    requires count >= FIRST
    ensures Width(count) >= 9
    ensures Pow2(Width(count) - 1) < count <= Pow2(Width(count))
  {
    Pow2Values();
    WidthFromLeast(count, 9);
  }

  /** Adding one node widens the codes exactly when the old width is full. */
  lemma WidthStep(count: nat)
    requires count >= FIRST
    ensures Width(count + 1) == if count + 1 > Pow2(Width(count)) then Width(count) + 1 else Width(count)
  {
    WidthLeast(count);
    WidthLeast(count + 1);
    var w, w' := Width(count), Width(count + 1);
    if w' < w {
      if w' < w - 1 { Pow2Grows(w', w - 1); }
    } else if w' > w {
      if w < w' - 1 { Pow2Grows(w, w' - 1); }
    }
  }

  lemma WidthBounded(count: nat, w: nat)
    requires FIRST <= count <= Pow2(w)
    ensures Width(count) <= w
  {
    WidthLeast(count);
    if Width(count) > w {
      if w < Width(count) - 1 { Pow2Grows(w, Width(count) - 1); }
    }
  }

  /** Bits taken by the first `t` codes. */
  function BitsRead(t: nat): nat {
    if t == 0 then 0 else BitsRead(t - 1) + Width(FIRST + t - 1)
  }

  /** How reading a stream ends: at the marker, at a code not in the dictionary, or at the end of the input. */
  datatype Parsed =
    | Finished(codes: seq<nat>)
    | Corrupt(codes: seq<nat>)
    | Truncated(codes: seq<nat>)

  /** The codes of `stream` from bit `pos` on, `before` having been read already.
      A code is readable only if the stream goes on beyond it. */
  function Parse(stream: seq<bool>, pos: nat, before: seq<nat>): (p: Parsed)
    requires Legal(before)
    ensures Legal(p.codes) && before <= p.codes
    decreases if pos <= |stream| then |stream| - pos else 0
  {
    var count := FIRST + |before|;
    var w := Width(count);
    WidthLeast(count);
    if pos + w >= |stream| then
      Truncated(before)
    else
      var c := FromBits(stream[pos..pos + w]);
      if c >= count then Corrupt(before)
      else if c == END then Finished(before)
      else Parse(stream, pos + w, before + [c])
  }

  /** The bits of codes `from`, `from` + 1, ... and of one code more. */
  function PackFrom(cs: seq<nat>, from: nat, last: nat): seq<bool>
    requires from <= |cs|
    decreases |cs| - from
  {
    if from == |cs| then ToBits(last, Width(FIRST + from))
    else ToBits(cs[from], Width(FIRST + from)) + PackFrom(cs, from + 1, last)
  }

  /** How the code `last` ends a stream whose earlier codes are `cs`. */
  function Ending(cs: seq<nat>, last: nat): Parsed
    requires last == END || last >= FIRST + |cs|
  {
    if last == END then Finished(cs) else Corrupt(cs)
  }

  /** Reading one packed code. */
  lemma ParseStep(stream: seq<bool>, pos: nat, before: seq<nat>, c: nat)
    requires Legal(before) && c < Pow2(Width(FIRST + |before|))
    requires pos + Width(FIRST + |before|) < |stream|
    requires stream[pos..pos + Width(FIRST + |before|)] == ToBits(c, Width(FIRST + |before|))
    ensures c == END || c >= FIRST + |before| ==> Parse(stream, pos, before) == Ending(before, c)
    ensures c != END && c < FIRST + |before| ==> Legal(before + [c])
    ensures c != END && c < FIRST + |before| ==>
      Parse(stream, pos, before) == Parse(stream, pos + Width(FIRST + |before|), before + [c])
  {
  }

  lemma SliceOfPrefix<T>(a: seq<T>, s: seq<T>, pos: nat, w: nat)
    requires pos <= |s| && w <= |a| && a < s[pos..]
    ensures pos + w < |s| && s[pos..pos + w] == a[..w]
    ensures a[w..] < s[pos + w..]
  {
  }

  /** Any stream that begins with the packed codes and is longer than them parses back. */
  lemma {:induction false} ParsePacked(cs: seq<nat>, from: nat, last: nat, stream: seq<bool>, pos: nat)
    requires Legal(cs) && from <= |cs|
    requires (last == END || last >= FIRST + |cs|) && last < Pow2(Width(FIRST + |cs|))
    requires pos <= |stream| && PackFrom(cs, from, last) < stream[pos..]
    ensures Legal(cs[..from])
    ensures Parse(stream, pos, cs[..from]) == Ending(cs, last)
    decreases |cs| - from
  {
    hide Parse, Width, ToBits, Pow2;
    var w := Width(FIRST + from);
    SliceOfPrefix(PackFrom(cs, from, last), stream, pos, w);
    if from == |cs| {
      assert cs[..from] == cs;
      ParseStep(stream, pos, cs, last);
    } else {
      WidthLeast(FIRST + from);
      assert cs[..from] + [cs[from]] == cs[..from + 1];
      ParseStep(stream, pos, cs[..from], cs[from]);
      ParsePacked(cs, from + 1, last, stream, pos + w);
    }
  }

  lemma Readable(stream: seq<bool>, pos: nat, before: seq<nat>)
    requires Legal(before) && !Parse(stream, pos, before).Truncated?
    ensures pos + Width(FIRST + |before|) < |stream|
  {
  }

  /** A stream that is not cut short begins with its packed codes and the code that ended it. */
  lemma {:induction false} ParsedIsPacked(stream: seq<bool>, pos: nat, before: seq<nat>) returns (last: nat)
    requires Legal(before) && pos <= |stream| && !Parse(stream, pos, before).Truncated?
    ensures var cs := Parse(stream, pos, before).codes;
            && (last == END || last >= FIRST + |cs|) && last < Pow2(Width(FIRST + |cs|))
            && PackFrom(cs, |before|, last) < stream[pos..]
            && Parse(stream, pos, before) == Ending(cs, last)
    decreases |stream| - pos
  {
    hide Width, ToBits, FromBits, Pow2, Parse;
    var w := Width(FIRST + |before|);
    WidthLeast(FIRST + |before|);
    Readable(stream, pos, before);
    var code := stream[pos..pos + w];
    var c := FromBits(code);
    ToBitsFromBits(code);
    assert stream[pos..] == code + stream[pos + w..];
    ParseStep(stream, pos, before, c);
    if c == END || c >= FIRST + |before| {
      last := c;
    } else {
      last := ParsedIsPacked(stream, pos + w, before + [c]);
      assert (before + [c])[|before|] == c;
    }
  }

  /** The stream holds `cs`, then the code `last`, then more. */
  ghost predicate Holds(stream: seq<bool>, cs: seq<nat>, last: nat) {
    last < Pow2(Width(FIRST + |cs|)) && PackFrom(cs, 0, last) < stream
  }

  lemma HoldsParses(stream: seq<bool>, cs: seq<nat>, last: nat)
    requires Legal(cs) && Holds(stream, cs, last) && (last == END || last >= FIRST + |cs|)
    ensures Parse(stream, 0, []) == Ending(cs, last)
  {
    assert stream[0..] == stream && cs[..0] == [];
    ParsePacked(cs, 0, last, stream, 0);
  }

  /** Reading ends at the marker exactly when legal codes and the marker are there. */
  lemma FinishedIff(stream: seq<bool>, cs: seq<nat>)
    ensures Parse(stream, 0, []) == Finished(cs) <==> Legal(cs) && Holds(stream, cs, END)
  {
    if Parse(stream, 0, []) == Finished(cs) {
      var last := ParsedIsPacked(stream, 0, []);
      assert stream[0..] == stream;
    }
    if Legal(cs) && Holds(stream, cs, END) {
      HoldsParses(stream, cs, END);
    }
  }

  /** Reading fails exactly when legal codes are followed by one that is not in the dictionary. */
  lemma CorruptIff(stream: seq<bool>, cs: seq<nat>)
    ensures Parse(stream, 0, []) == Corrupt(cs) <==>
            Legal(cs) && exists last :: last >= FIRST + |cs| && Holds(stream, cs, last)
  {
    if Parse(stream, 0, []) == Corrupt(cs) {
      var last := ParsedIsPacked(stream, 0, []);
      assert stream[0..] == stream;
      assert Holds(stream, cs, last);
    }
    if Legal(cs) && exists last :: last >= FIRST + |cs| && Holds(stream, cs, last) {
      var last :| last >= FIRST + |cs| && Holds(stream, cs, last);
      HoldsParses(stream, cs, last);
    }
  }

  lemma Padded(bits: seq<bool>)
    ensures |bits + Zeros(32 - |bits| % 32)| % 32 == 0 && bits < bits + Zeros(32 - |bits| % 32)
  {
    var n := |bits|;
    assert n == 32 * (n / 32) + n % 32;
    assert n + (32 - n % 32) == 32 * (n / 32 + 1);
  }

  /** The packed codes and marker as words, with at least one readable bit beyond them. */
  function PackWords(cs: seq<nat>): (ws: seq<Word>)
    ensures PackFrom(cs, 0, END) < BitStream(ws)
  {
    var bits := PackFrom(cs, 0, END);
    Padded(bits);
    ToWords(bits + Zeros(32 - |bits| % 32))
  }

  lemma {:induction false} BitStreamConcat(a: seq<Word>, b: seq<Word>)
    ensures BitStream(a + b) == BitStream(a) + BitStream(b)
  {
    hide BitsOf;
    if a == [] {
      assert a + b == b;
    } else {
      BitStreamConcat(a[1..], b);
      assert (a + b)[1..] == a[1..] + b;
    }
  }

  lemma PackedWordsParse(cs: seq<nat>, junk: seq<Word>)
    requires Legal(cs)
    ensures Parse(BitStream(PackWords(cs) + junk), 0, []) == Finished(cs)
  {
    BitStreamConcat(PackWords(cs), junk);
    WidthLeast(FIRST + |cs|);
    FinishedIff(BitStream(PackWords(cs) + junk), cs);
  }
}
