/**
 Bytes, 32-bit words and bit sequences.

 A bit sequence is written least significant bit first.  The word operations `Shr`, `Shl`, `Or`
 and `And` are those of a 32-bit unsigned integer; each has a lemma saying what it does to the bits.
 */
module Bits {

  type Byte = n: int | 0 <= n < 256
  type Word = n: int | 0 <= n < 0x1_0000_0000

  // ----- arithmetic -----

  lemma MulAtLeast(x: int, d: nat)
    requires x >= 1
    ensures x * d >= d
  {
  }

  lemma MulMinus(x: int, y: int, d: int)
    ensures (x - y) * d == x * d - y * d
  {
  }

  lemma MulDouble(p: int, x: int)
    ensures (2 * p) * x == 2 * (p * x)
  {
  }

  lemma MulCommutes(x: int, y: int)
    ensures x * y == y * x
  {
  }

  lemma DivMod(a: nat, d: nat)
    requires d > 0
    ensures a == (a / d) * d + a % d && 0 <= a % d < d && a / d >= 0
  {
  }

  lemma DivUnique(a: nat, d: nat, q: nat, r: nat)
    requires d > 0 && r < d && a == q * d + r
    ensures a / d == q && a % d == r
  {
    DivMod(a, d);
    var q' := a / d;
    if q < q' {
      MulMinus(q', q, d);
      MulAtLeast(q' - q, d);
    } else if q' < q {
      MulMinus(q, q', d);
      MulAtLeast(q - q', d);
    }
  }

  lemma DivBounds(a: nat, d: nat)
    requires d > 0
    ensures 0 <= a / d <= a
  {
    DivMod(a, d);
    if a / d > a {
      MulAtLeast(d, a / d);
      assert false;
    }
  }

  // ----- bit sequences -----

  function Pow2(n: nat): (p: nat)
    ensures p > 0
  {
    if n == 0 then 1 else 2 * Pow2(n - 1)
  }

  lemma {:induction false} Pow2Add(a: nat, b: nat)
    ensures Pow2(a + b) == Pow2(a) * Pow2(b)
  {
    if a > 0 {
      Pow2Add(a - 1, b);
      assert Pow2(a + b) == 2 * Pow2(a - 1 + b);
      MulDouble(Pow2(a - 1), Pow2(b));
    }
  }

  lemma {:induction false} Pow2Grows(a: nat, b: nat)
    requires a < b
    ensures Pow2(a) < Pow2(b)
    decreases b
  {
    if a < b - 1 {
      Pow2Grows(a, b - 1);
    }
  }

  lemma Pow2Values()
    ensures Pow2(8) == 256 && Pow2(9) == 512 && Pow2(32) == 0x1_0000_0000
  {
    assert Pow2(4) == 16;
    Pow2Add(4, 4);
    Pow2Add(8, 8);
    Pow2Add(16, 16);
  }

  /** The number whose binary digits are `s`, least significant first. */
  function FromBits(s: seq<bool>): (n: nat)
    ensures n < Pow2(|s|)
  {
    if s == [] then 0 else (if s[0] then 1 else 0) + 2 * FromBits(s[1..])
  }

  /** The `w` low binary digits of `n`, least significant first. */
  function ToBits(n: nat, w: nat): (s: seq<bool>)
    ensures |s| == w
    ensures n < Pow2(w) ==> FromBits(s) == n
  {
    if w == 0 then [] else [n % 2 == 1] + ToBits(n / 2, w - 1)
  }

  lemma {:induction false} ToBitsFromBits(s: seq<bool>)
    ensures ToBits(FromBits(s), |s|) == s
  {
    if s != [] {
      ToBitsFromBits(s[1..]);
    }
  }

  function Zeros(n: nat): (s: seq<bool>)
    ensures |s| == n && forall i :: 0 <= i < n ==> !s[i]
  {
    seq(n, _ => false)
  }

  lemma {:induction false} FromBitsConcat(a: seq<bool>, b: seq<bool>)
    ensures FromBits(a + b) == FromBits(a) + Pow2(|a|) * FromBits(b)
  {
    if a == [] {
      assert a + b == b;
    } else {
      FromBitsConcat(a[1..], b);
      assert (a + b)[1..] == a[1..] + b;
      MulDouble(Pow2(|a| - 1), FromBits(b));
    }
  }

  lemma {:induction false} FromBitsZeros(n: nat)
    ensures FromBits(Zeros(n)) == 0
  {
    if n > 0 {
      FromBitsZeros(n - 1);
      assert Zeros(n)[1..] == Zeros(n - 1);
    }
  }

  lemma PaddingKeepsValue(s: seq<bool>, n: nat)
    ensures FromBits(s + Zeros(n)) == FromBits(s)
  {
    FromBitsConcat(s, Zeros(n));
    FromBitsZeros(n);
  }

  /** A number has only one writing of a given width. */
  lemma BitsUnique(s: seq<bool>, n: nat)
    requires FromBits(s) == n
    ensures s == ToBits(n, |s|)
  {
  }

  // ----- 32-bit words -----

  function BitsOf(w: Word): (s: seq<bool>)
    ensures |s| == 32 && FromBits(s) == w
  {
    Pow2Values();
    ToBits(w, 32)
  }

  function ToWord(s: seq<bool>): (w: Word)
    requires |s| == 32
    ensures BitsOf(w) == s
  {
    Pow2Values();
    ToBitsFromBits(s);
    FromBits(s)
  }

  function Shr(w: Word, k: nat): (r: Word)
  {
    DivBounds(w, Pow2(k));
    w / Pow2(k)
  }

  function Shl(w: Word, k: nat): (r: Word)
  {
    w * Pow2(k) % 0x1_0000_0000
  }

  function Or(a: Word, b: Word): (r: Word)
  {
    ToWord(seq(32, i requires 0 <= i < 32 => BitsOf(a)[i] || BitsOf(b)[i]))
  }

  function And(a: Word, b: Word): (r: Word)
  {
    ToWord(seq(32, i requires 0 <= i < 32 => BitsOf(a)[i] && BitsOf(b)[i]))
  }

  lemma TakeAndDrop(s: seq<bool>, k: nat)
    requires k <= |s|
    ensures FromBits(s) / Pow2(k) == FromBits(s[k..])
    ensures FromBits(s) % Pow2(k) == FromBits(s[..k])
  {
    hide FromBits, Pow2;
    assert s == s[..k] + s[k..];
    FromBitsConcat(s[..k], s[k..]);
    MulCommutes(Pow2(k), FromBits(s[k..]));
    DivUnique(FromBits(s), Pow2(k), FromBits(s[k..]), FromBits(s[..k]));
  }

  /** A right shift drops the low bits. */
  lemma ShrBits(w: Word, k: nat)
    requires k <= 32
    ensures BitsOf(Shr(w, k)) == BitsOf(w)[k..] + Zeros(k)
  {
    TakeAndDrop(BitsOf(w), k);
    PaddingKeepsValue(BitsOf(w)[k..], k);
    BitsUnique(BitsOf(w)[k..] + Zeros(k), Shr(w, k));
  }

  lemma PrefixZeros(s: seq<bool>, k: nat)
    ensures FromBits(Zeros(k) + s) == FromBits(s) * Pow2(k)
  {
    hide FromBits, Pow2, Zeros;
    FromBitsZeros(k);
    FromBitsConcat(Zeros(k), s);
    MulCommutes(Pow2(k), FromBits(s));
  }

  lemma LowWord(s: seq<bool>)
    requires |s| >= 32
    ensures FromBits(s) % 0x1_0000_0000 == FromBits(s[..32])
  {
    TakeAndDrop(s, 32);
    Pow2Values();
  }

  /** A left shift drops the high bits. */
  lemma ShlBits(w: Word, k: nat)
    requires k <= 32
    ensures BitsOf(Shl(w, k)) == Zeros(k) + BitsOf(w)[..32 - k]
  {
    var bits := BitsOf(w);
    PrefixZeros(bits, k);
    LowWord(Zeros(k) + bits);
    assert (Zeros(k) + bits)[..32] == Zeros(k) + bits[..32 - k];
    BitsUnique(Zeros(k) + bits[..32 - k], Shl(w, k));
  }

  function Ones(b: nat, w: nat): (s: seq<bool>)
    ensures |s| == w && forall i :: 0 <= i < w ==> s[i] == (i < b)
  {
    seq(w, i => i < b)
  }

  lemma HalfMask(b: nat)
    requires b > 0
    ensures (Pow2(b) - 1) % 2 == 1 && (Pow2(b) - 1) / 2 == Pow2(b - 1) - 1
  {
  }

  /** The low-order mask `(1 << b) - 1`. */
  lemma {:induction false} MaskBits(b: nat, w: nat)
    requires b <= w
    ensures ToBits(Pow2(b) - 1, w) == Ones(b, w)
    decreases w
  {
    if w > 0 {
      if b > 0 {
        HalfMask(b);
        MaskBits(b - 1, w - 1);
        assert Ones(b, w) == [true] + Ones(b - 1, w - 1);
      } else {
        MaskBits(0, w - 1);
        assert Ones(0, w) == [false] + Ones(0, w - 1);
      }
    }
  }

  lemma MaskIsWord(b: nat)
    requires b < 32
    ensures 0 <= Pow2(b) - 1 < 0x1_0000_0000
  {
    Pow2Values();
    Pow2Grows(b, 32);
  }

  lemma OrBits(a: Word, b: Word, i: nat)
    requires i < 32
    ensures BitsOf(Or(a, b))[i] == (BitsOf(a)[i] || BitsOf(b)[i])
  {
  }

  lemma {:induction false} ZeroIff(s: seq<bool>)
    ensures FromBits(s) == 0 <==> forall i :: 0 <= i < |s| ==> !s[i]
    decreases |s|
  {
    if s != [] {
      ZeroIff(s[1..]);
      assert (forall i :: 0 <= i < |s| ==> !s[i]) ==> forall i :: 0 <= i < |s[1..]| ==> !s[1..][i];
      assert !s[0] && (forall i :: 0 <= i < |s[1..]| ==> !s[1..][i]) ==> forall i :: 0 < i < |s| ==> s[i] == s[1..][i - 1];
    }
  }

  /** Two words have a common bit exactly if their conjunction is not 0. */
  lemma CommonBitIff(a: Word, b: Word)
    ensures And(a, b) != 0 <==> exists i :: 0 <= i < 32 && BitsOf(a)[i] && BitsOf(b)[i]
  {
    var s := BitsOf(And(a, b));
    ZeroIff(s);
    hide FromBits;
    assert forall i :: 0 <= i < 32 ==> s[i] == (BitsOf(a)[i] && BitsOf(b)[i]);
  }

  lemma MaskedBits(w: Word, m: Word, b: nat)
    requires b < 32 && BitsOf(m) == Ones(b, 32)
    ensures BitsOf(And(w, m)) == BitsOf(w)[..b] + Zeros(32 - b)
  {
  }

  /** Masking keeps the low `b` bits. */
  lemma MaskedValue(w: Word, m: Word, b: nat)
    requires b < 32 && m == Pow2(b) - 1
    ensures And(w, m) == FromBits(BitsOf(w)[..b])
  {
    MaskBits(b, 32);
    MaskedBits(w, m, b);
    PaddingKeepsValue(BitsOf(w)[..b], 32 - b);
  }

  /** The bits of a sequence of words, in reading order. */
  function BitStream(ws: seq<Word>): (s: seq<bool>)
    ensures |s| == 32 * |ws|
  {
    if ws == [] then [] else BitsOf(ws[0]) + BitStream(ws[1..])
  }

  lemma {:induction false} BitStreamAt(ws: seq<Word>, i: nat)
    requires i < |ws|
    ensures BitStream(ws)[32 * i..32 * i + 32] == BitsOf(ws[i])
  {
    hide BitsOf;
    if i > 0 {
      BitStreamAt(ws[1..], i - 1);
      var rest := BitStream(ws[1..]);
      assert BitStream(ws)[32 * i..32 * i + 32] == rest[32 * (i - 1)..32 * (i - 1) + 32];
    } else {
      assert BitStream(ws)[0..32] == BitsOf(ws[0]);
    }
  }

  /** Cut a bit sequence into words. */
  function ToWords(s: seq<bool>): (ws: seq<Word>)
    requires |s| % 32 == 0
    ensures |ws| == |s| / 32
    ensures BitStream(ws) == s
  {
    if s == [] then [] else [ToWord(s[..32])] + ToWords(s[32..])
  }
}
