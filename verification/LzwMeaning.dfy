/**
 What an LZW code sequence means (hwinit/lzw.c).

 Codes 0..255 stand for themselves and 256 is the end marker.  The m-th code adds dictionary node
 257 + m: the phrase of that code, followed by the first byte of the phrase of the next code.
 */
module LzwMeaning {
  import opened Bits

  const END := 256
  const FIRST := 257

  /** Every code was in the dictionary when it was read, and none is the end marker. */
  predicate Legal(cs: seq<nat>) {
    forall m :: 0 <= m < |cs| ==> cs[m] != END && cs[m] < FIRST + m
  }

  /** The node has been added. */
  predicate Added(cs: seq<nat>, n: nat) {
    n < END || FIRST <= n < FIRST + |cs|
  }

  /** The node has been added and its last symbol is known. */
  predicate Complete(cs: seq<nat>, n: nat) {
    n < END || FIRST <= n < END + |cs|
  }

  /** First symbol of a node: that of the node it extends. */
  function Head(cs: seq<nat>, n: nat): Byte
    requires Legal(cs) && Added(cs, n)
  {
    if n < END then n else Head(cs, cs[n - FIRST])
  }

  function Phrase(cs: seq<nat>, n: nat): seq<Byte>
    requires Legal(cs) && Complete(cs, n)
  {
    if n < END then [n] else Phrase(cs, cs[n - FIRST]) + [Head(cs, cs[n - FIRST + 1])]
  }

  /** The phrases of the first `t` codes, in order. */
  function Output(cs: seq<nat>, t: nat): seq<Byte>
    requires Legal(cs) && t <= |cs|
  {
    if t == 0 then [] else Output(cs, t - 1) + Phrase(cs, cs[t - 1])
  }

  function Text(cs: seq<nat>): seq<Byte>
    requires Legal(cs)
  {
    Output(cs, |cs|)
  }

  lemma {:induction false} PhraseStartsWithHead(cs: seq<nat>, n: nat)
    requires Legal(cs) && Complete(cs, n)
    ensures Phrase(cs, n) != [] && Phrase(cs, n)[0] == Head(cs, n)
    decreases n
  {
    if n >= END {
      PhraseStartsWithHead(cs, cs[n - FIRST]);
    }
  }

  /** The dictionary law, including the code that names the node it is about to complete. */
  lemma DictionaryLaw(cs: seq<nat>, m: nat)
    requires Legal(cs) && m + 1 < |cs|
    ensures Phrase(cs, cs[m + 1]) != []
    ensures Phrase(cs, FIRST + m) == Phrase(cs, cs[m]) + [Phrase(cs, cs[m + 1])[0]]
  {
    PhraseStartsWithHead(cs, cs[m + 1]);
  }

  predicate LawAt(cs: seq<nat>, d: nat -> seq<Byte>, m: nat)
    requires m + 1 < |cs|
  {
    d(cs[m + 1]) != [] && d(FIRST + m) == d(cs[m]) + [d(cs[m + 1])[0]]
  }

  /** A table that obeys the dictionary law. */
  ghost predicate ObeysLaw(cs: seq<nat>, d: nat -> seq<Byte>) {
    && (forall n: nat :: n < END ==> d(n) == [n])
    && (forall m :: 0 <= m < |cs| - 1 ==> LawAt(cs, d, m))
  }

  lemma {:induction false} LawFixesHead(cs: seq<nat>, d: nat -> seq<Byte>, n: nat)
    requires Legal(cs) && Complete(cs, n) && ObeysLaw(cs, d)
    ensures d(n) != [] && d(n)[0] == Head(cs, n)
    decreases n
  {
    if n >= END {
      var m := n - FIRST;
      assert LawAt(cs, d, m);
      LawFixesHead(cs, d, cs[m]);
    }
  }

  /** The law determines the dictionary: no other table satisfies it. */
  lemma {:induction false} LawDeterminesPhrases(cs: seq<nat>, d: nat -> seq<Byte>, n: nat)
    requires Legal(cs) && Complete(cs, n) && ObeysLaw(cs, d)
    ensures d(n) == Phrase(cs, n)
    decreases n
  {
    if n >= END {
      var m := n - FIRST;
      assert LawAt(cs, d, m);
      LawDeterminesPhrases(cs, d, cs[m]);
      LawFixesHead(cs, d, cs[m + 1]);
    }
  }

  // ----- later codes do not change what earlier ones meant -----

  lemma {:induction false} HeadStable(cs: seq<nat>, more: seq<nat>, n: nat)
    requires Legal(cs) && Legal(more) && cs <= more && Added(cs, n)
    ensures Head(more, n) == Head(cs, n)
    decreases n
  {
    if n >= END {
      HeadStable(cs, more, cs[n - FIRST]);
    }
  }

  lemma {:induction false} PhraseStable(cs: seq<nat>, more: seq<nat>, n: nat)
    requires Legal(cs) && Legal(more) && cs <= more && Complete(cs, n)
    ensures Phrase(more, n) == Phrase(cs, n)
    decreases n
  {
    if n >= END {
      PhraseStable(cs, more, cs[n - FIRST]);
      HeadStable(cs, more, cs[n - FIRST + 1]);
    }
  }

  lemma {:induction false} OutputStable(cs: seq<nat>, more: seq<nat>, t: nat)
    requires Legal(cs) && Legal(more) && cs <= more && t <= |cs|
    ensures Output(more, t) == Output(cs, t)
  {
    if t > 0 {
      OutputStable(cs, more, t - 1);
      PhraseStable(cs, more, cs[t - 1]);
    }
  }

  lemma {:induction false} OutputPrefix(cs: seq<nat>, t: nat, u: nat)
    requires Legal(cs) && t <= u <= |cs|
    ensures Output(cs, t) <= Output(cs, u)
    decreases u
  {
    if t < u {
      OutputPrefix(cs, t, u - 1);
    }
  }

  /** The text of the codes read so far is a prefix of the whole text. */
  lemma TextPrefix(cs: seq<nat>, more: seq<nat>)
    requires Legal(cs) && Legal(more) && cs <= more
    ensures Text(cs) <= Text(more)
  {
    OutputStable(cs, more, |cs|);
    OutputPrefix(more, |cs|, |more|);
  }

  // ----- size bounds -----

  lemma {:induction false} PhraseLength(cs: seq<nat>, n: nat)
    requires Legal(cs) && Complete(cs, n)
    ensures 1 <= |Phrase(cs, n)| <= if n < END then 1 else n - 255
    decreases n
  {
    if n >= END {
      PhraseLength(cs, cs[n - FIRST]);
    }
  }

  /** After `t` codes the output holds at least `t` and at most t(t+1)/2 bytes. */
  lemma {:induction false} OutputLength(cs: seq<nat>, t: nat)
    requires Legal(cs) && t <= |cs|
    ensures t <= |Output(cs, t)| && 2 * |Output(cs, t)| <= t * (t + 1)
  {
    if t > 0 {
      OutputLength(cs, t - 1);
      PhraseLength(cs, cs[t - 1]);
      assert (t - 1) * t + 2 * t == t * (t + 1);
    }
  }
}
