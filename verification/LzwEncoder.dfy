/**
 The encoder side of LZW.  The repository has only the decoder (hwinit/lzw.c); this is the encoder it
 is meant for, stated on the text itself: the text is split into pieces, and each piece together with
 the byte after it becomes the next dictionary entry.
 */
module LzwEncoder {
  import opened Bits
  import opened LzwMeaning

  function Concat(pieces: seq<seq<Byte>>): seq<Byte> {
    if pieces == [] then [] else Concat(pieces[..|pieces| - 1]) + pieces[|pieces| - 1]
  }

  /** Entry 257 + k: the k-th piece and the byte that follows it in the text. */
  function Entry(pieces: seq<seq<Byte>>, k: nat): seq<Byte>
    requires k + 1 < |pieces| && pieces[k + 1] != []
  {
    pieces[k] + [pieces[k + 1][0]]
  }

  /** Code `cs[m]` names the m-th piece: a single byte, or an entry whose last byte has been reached. */
  predicate Names(pieces: seq<seq<Byte>>, m: nat, c: nat)
    requires m < |pieces| && forall i :: 0 <= i < |pieces| ==> pieces[i] != []
  {
    || (c < END && pieces[m] == [c])
    || (FIRST <= c < FIRST + m && pieces[m] == Entry(pieces, c - FIRST))
  }

  /** `cs` encodes the split, one code a piece. */
  predicate Encodes(pieces: seq<seq<Byte>>, cs: seq<nat>) {
    && |pieces| == |cs|
    && (forall i :: 0 <= i < |pieces| ==> pieces[i] != [])
    && forall m :: 0 <= m < |cs| ==> Names(pieces, m, cs[m])
  }

  lemma EncodesLegal(pieces: seq<seq<Byte>>, cs: seq<nat>)
    requires Encodes(pieces, cs)
    ensures Legal(cs)
  {
  }

  lemma {:induction false} HeadIsFirstByte(pieces: seq<seq<Byte>>, cs: seq<nat>, m: nat)
    requires Encodes(pieces, cs) && Legal(cs) && m < |cs|
    ensures Head(cs, cs[m]) == pieces[m][0]
  {
    assert Names(pieces, m, cs[m]);
    if cs[m] >= FIRST {
      HeadIsFirstByte(pieces, cs, cs[m] - FIRST);
    }
  }

  /** The decoder's phrase of a code is the piece the encoder used it for. */
  lemma {:induction false} PhraseIsPiece(pieces: seq<seq<Byte>>, cs: seq<nat>, m: nat)
    requires Encodes(pieces, cs) && Legal(cs) && m < |cs|
    ensures Phrase(cs, cs[m]) == pieces[m]
  {
    assert Names(pieces, m, cs[m]);
    if cs[m] >= FIRST {
      var k := cs[m] - FIRST;
      PhraseIsPiece(pieces, cs, k);
      HeadIsFirstByte(pieces, cs, k + 1);
    }
  }

  lemma {:induction false} OutputIsConcat(pieces: seq<seq<Byte>>, cs: seq<nat>, t: nat)
    requires Encodes(pieces, cs) && Legal(cs) && t <= |cs|
    ensures Output(cs, t) == Concat(pieces[..t])
  {
    if t > 0 {
      OutputIsConcat(pieces, cs, t - 1);
      PhraseIsPiece(pieces, cs, t - 1);
      assert pieces[..t][..t - 1] == pieces[..t - 1];
    }
  }

  /** Decoding undoes every encoding, greedy or not. */
  lemma EncodingDecodes(pieces: seq<seq<Byte>>, cs: seq<nat>)
    requires Encodes(pieces, cs)
    ensures Legal(cs) && Text(cs) == Concat(pieces)
  {
    EncodesLegal(pieces, cs);
    OutputIsConcat(pieces, cs, |cs|);
    assert pieces[..|cs|] == pieces;
  }

  /** Every code sequence that the decoder accepts is an encoding of its text. */
  lemma LegalIsEncoding(cs: seq<nat>) returns (pieces: seq<seq<Byte>>)
    requires Legal(cs)
    ensures Encodes(pieces, cs) && Concat(pieces) == Text(cs)
  {
    pieces := seq(|cs|, m requires 0 <= m < |cs| => Phrase(cs, cs[m]));
    forall m | 0 <= m < |cs|
      ensures pieces[m] != []
    {
      PhraseStartsWithHead(cs, cs[m]);
    }
    forall m | 0 <= m < |cs|
      ensures Names(pieces, m, cs[m])
    {
      if cs[m] >= FIRST {
        DictionaryLaw(cs, cs[m] - FIRST);
      }
    }
    EncodingDecodes(pieces, cs);
  }

  // ----- the greedy encoder -----

  predicate NoneEmpty(pieces: seq<seq<Byte>>) {
    forall i :: 0 <= i < |pieces| ==> pieces[i] != []
  }

  /** Entry 257 + k as the encoder knows it before the next piece is cut from `rest`. */
  function EntryAhead(pieces: seq<seq<Byte>>, rest: seq<Byte>, k: nat): seq<Byte>
    requires k < |pieces| && rest != [] && NoneEmpty(pieces)
  {
    if k + 1 < |pieces| then Entry(pieces, k) else pieces[k] + [rest[0]]
  }

  /** `piece` may be cut from the front of `rest` and written as code `c`. */
  predicate CanEmit(pieces: seq<seq<Byte>>, rest: seq<Byte>, c: nat, piece: seq<Byte>)
    requires rest != [] && NoneEmpty(pieces)
  {
    && piece != [] && piece <= rest
    && if c < END then piece == [c]
       else FIRST <= c < FIRST + |pieces| && piece == EntryAhead(pieces, rest, c - FIRST)
  }

  /** The longest prefix of `rest` among the single bytes and the first `k` entries, and its code. */
  function Longest(pieces: seq<seq<Byte>>, rest: seq<Byte>, k: nat): (r: (nat, seq<Byte>))
    requires k <= |pieces| && rest != [] && NoneEmpty(pieces)
    ensures CanEmit(pieces, rest, r.0, r.1)
  {
    if k == 0 then (rest[0], [rest[0]])
    else
      var best := Longest(pieces, rest, k - 1);
      var entry := EntryAhead(pieces, rest, k - 1);
      if entry <= rest && |entry| > |best.1| then (FIRST + k - 1, entry) else best
  }

  /** No dictionary entry that matches is longer than the one chosen. */
  lemma {:induction false} LongestIsLongest(pieces: seq<seq<Byte>>, rest: seq<Byte>, k: nat, c: nat, piece: seq<Byte>)
    requires k <= |pieces| && rest != [] && NoneEmpty(pieces)
    requires CanEmit(pieces, rest, c, piece) && c < FIRST + k
    ensures |piece| <= |Longest(pieces, rest, k).1|
    decreases k
  {
    if k > 0 && c < FIRST + k - 1 {
      LongestIsLongest(pieces, rest, k - 1, c, piece);
    }
  }

  lemma EncodesMore(pieces: seq<seq<Byte>>, cs: seq<nat>, rest: seq<Byte>, c: nat, piece: seq<Byte>)
    requires Encodes(pieces, cs) && rest != [] && CanEmit(pieces, rest, c, piece)
    ensures Encodes(pieces + [piece], cs + [c])
  {
  }

  /** Continue an encoding greedily over `rest`. */
  function Greedy(pieces: seq<seq<Byte>>, cs: seq<nat>, rest: seq<Byte>): (r: (seq<seq<Byte>>, seq<nat>))
    requires Encodes(pieces, cs)
    ensures Encodes(r.0, r.1)
    decreases |rest|
  {
    if rest == [] then (pieces, cs)
    else
      var best := Longest(pieces, rest, |pieces|);
      EncodesMore(pieces, cs, rest, best.0, best.1);
      Greedy(pieces + [best.1], cs + [best.0], rest[|best.1|..])
  }

  lemma ConcatMore(pieces: seq<seq<Byte>>, piece: seq<Byte>, rest: seq<Byte>)
    requires piece <= rest
    ensures Concat(pieces + [piece]) + rest[|piece|..] == Concat(pieces) + rest
  {
  }

  lemma {:induction false} GreedyCoversText(pieces: seq<seq<Byte>>, cs: seq<nat>, rest: seq<Byte>)
    requires Encodes(pieces, cs)
    ensures Concat(Greedy(pieces, cs, rest).0) == Concat(pieces) + rest
    decreases |rest|
  {
    if rest != [] {
      var best := Longest(pieces, rest, |pieces|);
      EncodesMore(pieces, cs, rest, best.0, best.1);
      GreedyCoversText(pieces + [best.1], cs + [best.0], rest[|best.1|..]);
      ConcatMore(pieces, best.1, rest);
    }
  }

  function GreedyCodes(text: seq<Byte>): seq<nat> {
    Greedy([], [], text).1
  }

  lemma GreedyDecodes(text: seq<Byte>)
    ensures Legal(GreedyCodes(text)) && Text(GreedyCodes(text)) == text
    ensures |GreedyCodes(text)| <= |text|
  {
    var r := Greedy([], [], text);
    GreedyCoversText([], [], text);
    EncodingDecodes(r.0, r.1);
    OutputLength(r.1, |r.1|);
  }
}
