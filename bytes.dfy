/** Bytes, machine integer widths and little-endian layouts.

    The runtime reads its input files little-endian and stores shorts,
    ints and pointers in its code buffer in the host's little-endian
    order; the helpers here give both directions once. */
module Bytes {

  type Byte = b: int | 0 <= b < 256

  const TWO_8: int := 0x100
  const TWO_16: int := 0x1_0000
  const TWO_24: int := 0x100_0000
  const TWO_31: int := 0x8000_0000
  const TWO_32: int := 0x1_0000_0000
  const TWO_64: int := 0x1_0000_0000_0000_0000

  predicate IsInt32(x: int)
  {
    -TWO_31 <= x < TWO_31
  }

  /** A C `int` result: the two's-complement value of the low 32 bits. */
  function Wrap32(x: int): (r: int)
    ensures IsInt32(r)
    ensures (x - r) % TWO_32 == 0
    ensures IsInt32(x) ==> r == x
  {
    var m := x % TWO_32;
    if m < TWO_31 then m else m - TWO_32
  }

  /** A value stored into a C `short`: the two's-complement value of its
      low 16 bits. */
  function Wrap16(x: int): (r: int)
    ensures -0x8000 <= r < 0x8000
    ensures (x - r) % TWO_16 == 0
    ensures -0x8000 <= x < 0x8000 ==> r == x
  {
    var m := x % TWO_16;
    if m < 0x8000 then m else m - TWO_16
  }

  /** A byte read into a C `char`, which is signed. */
  function Signed8(b: Byte): (r: int)
    ensures -128 <= r < 128
    ensures (r - b) % 256 == 0
  {
    if b < 128 then b else b - 256
  }

  /** Two bytes, low byte first, as an unsigned short. */
  function LE16(lo: Byte, hi: Byte): (r: int)
    ensures 0 <= r < TWO_16
  {
    lo + TWO_8 * hi
  }

  /** Four bytes, low byte first, as a signed int. */
  function LE32(b0: Byte, b1: Byte, b2: Byte, b3: Byte): (r: int)
    ensures IsInt32(r)
  {
    Wrap32(b0 + TWO_8 * b1 + TWO_16 * b2 + TWO_24 * b3)
  }

  /** Eight bytes, low byte first, as an unsigned word. */
  function LE64(b: seq<Byte>): (r: int)
    requires |b| == 8
    ensures 0 <= r < TWO_64
  {
    LE32U(b[..4]) + TWO_32 * LE32U(b[4..])
  }

  function LE32U(b: seq<Byte>): (r: int)
    requires |b| == 4
    ensures 0 <= r < TWO_32
  {
    b[0] + TWO_8 * b[1] + TWO_16 * b[2] + TWO_24 * b[3]
  }

  /** The two bytes of a C `short`, low byte first. */
  function Bytes16(x: int): (r: seq<Byte>)
    ensures |r| == 2
  {
    var m := x % TWO_16;
    [m % TWO_8, m / TWO_8]
  }

  /** The four bytes of a C `int`, low byte first. */
  function Bytes32(x: int): (r: seq<Byte>)
    ensures |r| == 4
  {
    var m := x % TWO_32;
    [m % TWO_8, (m / TWO_8) % TWO_8, (m / TWO_16) % TWO_8, m / TWO_24]
  }

  /** The eight bytes of a pointer-sized word, low byte first. */
  function Bytes64(x: int): (r: seq<Byte>)
    ensures |r| == 8
  {
    var m := x % TWO_64;
    Bytes32(m % TWO_32) + Bytes32(m / TWO_32)
  }

  lemma Short(x: int)
    ensures LE16(Bytes16(x)[0], Bytes16(x)[1]) == x % TWO_16
  {
  }

  lemma Split32(m: int)
    requires 0 <= m < TWO_32
    ensures m == m % TWO_8 + TWO_8 * ((m / TWO_8) % TWO_8)
               + TWO_16 * ((m / TWO_16) % TWO_8) + TWO_24 * (m / TWO_24)
  {
    var a := m % TWO_8;
    var q1 := m / TWO_8;
    var b := q1 % TWO_8;
    var q2 := q1 / TWO_8;
    var c := q2 % TWO_8;
    var d := q2 / TWO_8;
    assert m == a + TWO_8 * q1;
    assert q1 == b + TWO_8 * q2;
    assert q2 == c + TWO_8 * d;
    assert m / TWO_16 == q2 by {
      assert m == a + TWO_8 * b + TWO_16 * q2;
    }
    assert m / TWO_24 == d by {
      assert m == a + TWO_8 * b + TWO_16 * c + TWO_24 * d;
    }
  }

  lemma {:induction false} Int(x: int)
    ensures LE32U(Bytes32(x)) == x % TWO_32
    ensures LE32(Bytes32(x)[0], Bytes32(x)[1], Bytes32(x)[2], Bytes32(x)[3]) == Wrap32(x)
  {
    var m := x % TWO_32;
    Split32(m);
    assert Wrap32(m) == Wrap32(x);
  }

  lemma {:induction false} Word(x: int)
    ensures LE64(Bytes64(x)) == x % TWO_64
  {
    var m := x % TWO_64;
    var lo, hi := m % TWO_32, m / TWO_32;
    Halves(m);
    Int(lo);
    Int(hi);
    hide Bytes32, LE32U;
    var b := Bytes64(x);
    assert b[..4] == Bytes32(lo);
    assert b[4..] == Bytes32(hi);
    assert LE32U(b[..4]) == lo && LE32U(b[4..]) == hi;
    assert LE64(b) == lo + TWO_32 * hi;
  }

  /** Euclidean division by 2^8, 2^16 and 2^24: any quotient with a
      remainder in range is the quotient. */
  lemma Div8(x: int, q: int, r: int)
    requires x == q * TWO_8 + r && 0 <= r < TWO_8
    ensures x / TWO_8 == q && x % TWO_8 == r
  {
  }

  lemma Div16(x: int, q: int, r: int)
    requires x == q * TWO_16 + r && 0 <= r < TWO_16
    ensures x / TWO_16 == q && x % TWO_16 == r
  {
  }

  lemma Div24(x: int, q: int, r: int)
    requires x == q * TWO_24 + r && 0 <= r < TWO_24
    ensures x / TWO_24 == q && x % TWO_24 == r
  {
  }

  /** A 64-bit word is its low half plus 2^32 times its high half. */
  lemma Halves(m: int)
    requires 0 <= m < TWO_64
    ensures 0 <= m / TWO_32 < TWO_32 && m == m % TWO_32 + TWO_32 * (m / TWO_32)
    ensures (m % TWO_32) % TWO_32 == m % TWO_32 && (m / TWO_32) % TWO_32 == m / TWO_32
  {
  }

  const DIV_BY_ZERO := "Division by zero."

  /** C's `/` on ints: the quotient truncated toward zero. */
  function CDiv(a: int, b: int): int
    requires b != 0
  {
    var q := Abs(a) / Abs(b);
    if (a < 0) == (b < 0) then q else -q
  }

  /** C's `%` on ints: the remainder takes the sign of the dividend. */
  function CMod(a: int, b: int): int
    requires b != 0
  {
    a - b * CDiv(a, b)
  }

  function Abs(x: int): nat
  {
    if x < 0 then -x else x
  }

  /** C's remainder is the remainder of the magnitudes, carrying the
      dividend's sign. */
  lemma CModMagnitude(a: int, b: int)
    requires b != 0
    ensures CMod(a, b) == if a < 0 then -(Abs(a) % Abs(b)) else Abs(a) % Abs(b)
  {
    var x: int, y: int := Abs(a), Abs(b);
    var q: int := x / y;
    assert b * CDiv(a, b) == (if a < 0 then -(y * q) else y * q) by {
      if (a < 0) == (b < 0) {
        assert CDiv(a, b) == q;
      } else {
        assert CDiv(a, b) == -q;
      }
    }
  }

  lemma CDivMod(a: int, b: int)
    requires b != 0
    ensures Abs(CMod(a, b)) < Abs(b)
    ensures CMod(a, b) == 0 || (CMod(a, b) < 0 <==> a < 0)
  {
    CModMagnitude(a, b);
  }
}
