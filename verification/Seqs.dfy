/** Sequences used as lists and as buffers: removal, distinctness, and overwriting a part. */
module Seqs {

  function Without<T(==,!new)>(s: seq<T>, x: T): (r: seq<T>)
    ensures forall y :: y in r <==> y in s && y != x
    ensures x !in s ==> r == s
  {
    if s == [] then []
    else if s[0] == x then Without(s[1..], x)
    else [s[0]] + Without(s[1..], x)
  }

  predicate NoRepeats<T(==)>(s: seq<T>) {
    forall i, j :: 0 <= i < j < |s| ==> s[i] != s[j]
  }

  lemma {:induction false} WithoutOne<T(!new)>(s: seq<T>, x: T)
    requires NoRepeats(s) && x in s
    ensures NoRepeats(Without(s, x)) && |Without(s, x)| == |s| - 1
  {
    if s[0] == x {
      assert x !in s[1..];
    } else {
      WithoutOne(s[1..], x);
      assert s[0] !in s[1..] && s[0] !in Without(s[1..], x);
    }
  }

  lemma NoRepeatsConcat<T>(a: seq<T>, b: seq<T>)
    requires NoRepeats(a) && NoRepeats(b) && forall x :: x in b ==> x !in a
    ensures NoRepeats(a + b)
  {
    forall i, j | 0 <= i < j < |a + b|
      ensures (a + b)[i] != (a + b)[j]
    {
      assert i < |a| <= j ==> (a + b)[i] in a && (a + b)[j] in b;
    }
  }

  /** Buffer `s` with `part` written at `at`. */
  function Placed<T>(s: seq<T>, at: nat, part: seq<T>): (r: seq<T>)
    requires at + |part| <= |s|
    ensures |r| == |s|
  {
    s[..at] + part + s[at + |part|..]
  }

  lemma PlacedNothing<T>(s: seq<T>, at: nat)
    requires at <= |s|
    ensures Placed(s, at, []) == s
  {
  }

  lemma PlacedOne<T>(s: seq<T>, at: nat, part: seq<T>, x: T)
    requires at + |part| < |s|
    ensures Placed(s, at, part)[at + |part| := x] == Placed(s, at, part + [x])
  {
  }

  lemma PlacedAfter<T>(s: seq<T>, a: seq<T>, b: seq<T>)
    requires |a| + |b| <= |s|
    ensures Placed(Placed(s, 0, a), |a|, b) == Placed(s, 0, a + b)
  {
  }

  lemma PlacedPart<T>(s: seq<T>, at: nat, part: seq<T>)
    requires at + |part| <= |s|
    ensures Placed(s, at, part)[at..at + |part|] == part
  {
  }

}
