/** Strings ended by a zero byte, as mininit/init.c scans them in place. */
module CStrings {
  import opened Bits

  const NUL: Byte := 0
  const COMMA: Byte := ',' as int
  const SLASH: Byte := '/' as int

  predicate IsSpace(c: Byte) { c == 32 || 9 <= c <= 13 }

  /** White space as the C library has it: space, tab, newline, vertical tab, form feed and carriage return. */
  lemma SpacesAre(c: Byte)
    ensures IsSpace(c) <==> c as char in {' ', '\t', '\n', '\U{0B}', '\U{0C}', '\r'}
  {
  }

  /** The string that starts at `p`. */
  function CStr(b: seq<Byte>, p: nat): seq<Byte>
    decreases |b| - p
  {
    if p >= |b| || b[p] == NUL then [] else [b[p]] + CStr(b, p + 1)
  }

  predicate NoNul(s: seq<Byte>) { NUL !in s }

  /** The string from `p` up to the first zero byte, at `e`. */
  lemma {:induction false} CStrIs(b: seq<Byte>, p: nat, e: nat)
    requires p <= e < |b| && b[e] == NUL && NoNul(b[p..e])
    ensures CStr(b, p) == b[p..e]
    decreases e - p
  {
    if p < e {
      assert b[p..e] == [b[p]] + b[p + 1..e];
      CStrIs(b, p + 1, e);
    }
  }
}
