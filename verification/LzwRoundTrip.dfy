/**
 Encoding, packing and decoding: every text comes back (hwinit/lzw.c).
 */
module LzwRoundTrip {
  import opened Bits
  import opened Seqs
  import opened LzwMeaning
  import opened LzwStream
  import opened LzwEncoder
  import LzwDecoder

  /** The words that hold any encoding of a text, whatever follows them, are read as that encoding, which
      means the text and needs no more space than one node a code and the text itself. */
  lemma PackedFits(pieces: seq<seq<Byte>>, cs: seq<nat>, junk: seq<Word>)
    requires Encodes(pieces, cs) && FIRST + |cs| <= Pow2(30)
    ensures Legal(cs) && Text(cs) == Concat(pieces)
    ensures LzwDecoder.Codes(PackWords(cs) + junk) == Finished(cs)
    ensures LzwDecoder.Fits(Finished(cs), FIRST + |cs|, |Concat(pieces)|)
  {
    EncodingDecodes(pieces, cs);
    PackedWordsParse(cs, junk);
  }

  /** The same of the greedy encoding of any text. */
  lemma GreedyFits(text: seq<Byte>, junk: seq<Word>)
    requires FIRST + |text| <= Pow2(30)
    ensures Legal(GreedyCodes(text)) && Text(GreedyCodes(text)) == text
    ensures LzwDecoder.Codes(PackWords(GreedyCodes(text)) + junk) == Finished(GreedyCodes(text))
    ensures LzwDecoder.Fits(Finished(GreedyCodes(text)), FIRST + |text|, |text|)
  {
    GreedyDecodes(text);
    PackedWordsParse(GreedyCodes(text), junk);
  }

  /** Run the decoder on memory that begins with a packed encoding. */
  method DecodePacked(parent: array<int>, symbol: array<Byte>, src: array<Word>, dst: array<Byte>,
                      ghost pieces: seq<seq<Byte>>, ghost cs: seq<nat>, ghost junk: seq<Word>) returns (r: int)
    requires Encodes(pieces, cs) && src[..] == PackWords(cs) + junk
    requires FIRST + |cs| <= parent.Length == symbol.Length && FIRST + |cs| <= Pow2(30)
    requires symbol != dst && |Concat(pieces)| <= dst.Length
    modifies parent, symbol, dst
    ensures r == |Concat(pieces)| && dst[..] == Placed(old(dst[..]), 0, Concat(pieces))
  {
    PackedFits(pieces, cs, junk);
    MoreSpace(Finished(cs), FIRST + |cs|, |Concat(pieces)|, parent.Length, dst.Length);
    hide *;
    r := LzwDecoder.Decode(parent, symbol, src, dst);
  }

  /** Run the decoder on memory that begins with the packed greedy encoding of a text. */
  method DecodeGreedy(parent: array<int>, symbol: array<Byte>, src: array<Word>, dst: array<Byte>,
                      ghost text: seq<Byte>, ghost junk: seq<Word>) returns (r: int)
    requires src[..] == PackWords(GreedyCodes(text)) + junk
    requires FIRST + |text| <= parent.Length == symbol.Length && FIRST + |text| <= Pow2(30)
    requires symbol != dst && |text| <= dst.Length
    modifies parent, symbol, dst
    ensures r == |text| && dst[..] == Placed(old(dst[..]), 0, text)
  {
    GreedyFits(text, junk);
    MoreSpace(Finished(GreedyCodes(text)), FIRST + |text|, |text|, parent.Length, dst.Length);
    hide *;
    r := LzwDecoder.Decode(parent, symbol, src, dst);
  }

  lemma MoreSpace(p: Parsed, nodes: nat, room: nat, nodes': nat, room': nat)
    requires Legal(p.codes) && LzwDecoder.Fits(p, nodes, room) && nodes <= nodes' && room <= room'
    ensures LzwDecoder.Fits(p, nodes', room')
  {
  }
}
