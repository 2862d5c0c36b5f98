/** Bytes and the fixed-width arithmetic of the C sources. */
module Arith {
  type Byte = x: int | 0 <= x < 256

  /** A C `unsigned`. */
  type Word = x: int | 0 <= x < 0x1_0000_0000

  const TWO16: int := 0x1_0000
  const TWO32: int := 0x1_0000_0000
  const TWO31: int := 0x8000_0000
  const TWO64: int := 0x1_0000_0000_0000_0000

  /** The value of `x` after conversion to a C `guint32`. */
  function U32(x: int): (r: nat)
    ensures r < TWO32
    ensures 0 <= x < TWO32 ==> r == x
    ensures -TWO32 <= x < 0 ==> r == x + TWO32
  {
    x % TWO32
  }

  /** The value of a word after conversion to a C `int`. */
  function S32(w: Word): int {
    if w < TWO31 then w else w - TWO32
  }

  /** C division: truncates toward zero. */
  function Truncate(a: int, b: int): int
    requires b > 0
  {
    if a >= 0 then a / b else -((-a) / b)
  }

  function Min(a: int, b: int): int {
    if a < b then a else b
  }

  function Max(a: int, b: int): int {
    if a > b then a else b
  }

  /** The exclusive or of the `n` lowest bits. */
  function XorBits(a: nat, b: nat, n: nat): nat {
    if n == 0 then 0
    else 2 * XorBits(a / 2, b / 2, n - 1) + (if a % 2 != b % 2 then 1 else 0)
  }

  function Power2(n: nat): nat {
    if n == 0 then 1 else 2 * Power2(n - 1)
  }

  lemma {:induction false} XorBitsRange(a: nat, b: nat, n: nat)
    ensures XorBits(a, b, n) < Power2(n)
  {
    if n > 0 {
      XorBitsRange(a / 2, b / 2, n - 1);
    }
  }

  /** The exclusive or of two bytes. */
  function Xor(b: Byte, c: Byte): Byte {
    XorBitsRange(b, c, 8);
    assert Power2(8) == 256 by {
      assert Power2(4) == 16;
    }
    XorBits(b, c, 8)
  }

  lemma {:induction false} XorBitsTwice(a: nat, b: nat, n: nat)
    requires a < Power2(n)
    ensures XorBits(XorBits(a, b, n), b, n) == a
  {
    if n > 0 {
      var x := XorBits(a / 2, b / 2, n - 1);
      var d := if a % 2 != b % 2 then 1 else 0;
      assert (2 * x + d) / 2 == x && (2 * x + d) % 2 == d;
      XorBitsTwice(a / 2, b / 2, n - 1);
    }
  }

  lemma XorTwice(b: Byte, c: Byte)
    ensures Xor(Xor(b, c), c) == b
  {
    assert Power2(8) == 256 by {
      assert Power2(4) == 16;
    }
    XorBitsTwice(b, c, 8);
  }
}
