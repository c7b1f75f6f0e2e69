/** Vocabulary shared by the three driver models: bytes, optional values,
    C integer semantics and NUL-terminated strings. */
module Common {

  /** An unsigned 8-bit value (C `unsigned char`, kernel `u8`). */
  type byte = x: int | 0 <= x < 256

  /** A value that may be absent. */
  datatype Option<+T> = None | Some(value: T)

  function Min(a: int, b: int): (r: int)
    ensures r <= a && r <= b
    ensures r == a || r == b
  {
    if a <= b then a else b
  }

  const Int32Min: int := -0x8000_0000
  const Int32Max: int := 0x7FFF_FFFF

  /** `x` fits a C `int` (32 bits on the target). */
  predicate IsInt32(x: int) {
    Int32Min <= x <= Int32Max
  }

  /** C division on `int` for a positive divisor: the quotient is truncated
      toward zero, so the remainder takes the sign of the dividend (Dafny's
      own `/` is Euclidean and differs for negative dividends). */
  function CDiv(a: int, b: int): (q: int)
    requires b > 0
    ensures a >= 0 ==> 0 <= a - q * b < b
    ensures a < 0 ==> -b < a - q * b <= 0
  {
    if a >= 0 then a / b else -((-a) / b)
  }

  /** The errno the handlers return, negated, for a rejected argument. */
  const EINVAL: int := 22

  /** Bitwise AND, bit by bit from the least significant. */
  function And(a: nat, b: nat): (r: nat)
    ensures r <= a && r <= b
    decreases a + b
  {
    if a == 0 || b == 0 then 0
    else 2 * And(a / 2, b / 2) + (if a % 2 == 1 && b % 2 == 1 then 1 else 0)
  }

  /** Bitwise OR, bit by bit from the least significant. */
  function Or(a: nat, b: nat): nat
    decreases a + b
  {
    if a == 0 then b
    else if b == 0 then a
    else 2 * Or(a / 2, b / 2) + (if a % 2 == 1 || b % 2 == 1 then 1 else 0)
  }

  function Pow2(k: nat): (p: nat)
    ensures p >= 1
  {
    if k == 0 then 1 else 2 * Pow2(k - 1)
  }

  /** OR-ing a power of two into a smaller value adds it: the bits do not
      overlap. */
  lemma {:induction false} OrPow2(k: nat, x: nat)
    requires x < Pow2(k)
    ensures Or(Pow2(k), x) == Pow2(k) + x
  {
    if k > 0 && x > 0 {
      var p := Pow2(k);
      assert p / 2 == Pow2(k - 1) && p % 2 == 0;
      assert x / 2 < Pow2(k - 1);
      OrPow2(k - 1, x / 2);
      assert Or(p, x) == 2 * Or(p / 2, x / 2) + x % 2;
    }
  }

  /** OR-ing the top bit into a 7-bit value adds 0x80. */
  lemma OrTopBit(x: byte)
    requires x < 0x80
    ensures Or(0x80, x) == 0x80 + x
  {
    assert Pow2(7) == 0x80;
    OrPow2(7, x);
  }

  /** `strlen`: the index of the first NUL byte of a C string. */
  function StrLen(s: seq<byte>): (n: nat)
    requires 0 in s
    ensures n < |s| && s[n] == 0
    ensures forall i :: 0 <= i < n ==> s[i] != 0
  {
    if s[0] == 0 then 0 else 1 + StrLen(s[1..])
  }
}
