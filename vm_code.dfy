/** The linked code buffer of the virtual machine: its instruction tags,
    the alignment of its fields and how each field is written and read
    back.

    The buffer is a byte sequence; offset `o` in it sits at address
    `CODE_BASE + o`.  The linker writes shorts, ints and pointers at
    2-, 4- and 8-byte aligned addresses and the interpreter's `next_*`
    readers apply the same rounding to the instruction pointer, so a field
    is read back from the offset it was written at. */
module VmCode {
  import opened Wrappers
  import opened Bytes

  //============================================================
  // Instruction tags of the linked code
  //============================================================

  const INT_INS: Byte := 0
  const NULL_INS: Byte := 1
  const PRINTF_INS: Byte := 2
  const ARRAY_INS: Byte := 3
  const OBJECT_INS: Byte := 4
  const SLOT_INS: Byte := 5
  const SET_SLOT_INS: Byte := 6
  const CALL_SLOT_INS: Byte := 7
  const CALL_INS: Byte := 8
  const SET_LOCAL_INS: Byte := 9
  const GET_LOCAL_INS: Byte := 10
  const SET_GLOBAL_INS: Byte := 11
  const GET_GLOBAL_INS: Byte := 12
  const BRANCH_INS: Byte := 13
  const GOTO_INS: Byte := 14
  const RETURN_INS: Byte := 15
  const DROP_INS: Byte := 16
  const FRAME_INS: Byte := 17

  /** The address of the first byte of the buffer: a nonzero multiple of
      eight, as a `malloc`ed block is, so that 0 stays the null pointer
      that ends `runvm`. */
  const CODE_BASE := 8

  /** The message for a read the C code does not guard and whose result
      is undefined there (a read past the end of the buffer, a reference
      to no object); the model stops with it. */
  const UNDEFINED := "Undefined behaviour."

  //============================================================
  // Alignment
  //============================================================

  predicate IsAlignment(k: int)
  {
    k == 2 || k == 4 || k == 8
  }

  /** align_short, align_int, align_ptr: `(x + k - 1) & -k`, the least
      multiple of `k` that is at least `x`. */
  function AlignUp(x: int, k: int): (r: int)
    requires IsAlignment(k)
  {
    x + k - 1 - (x + k - 1) % k
  }

  lemma AlignUpBounds(x: int, k: int)
    requires IsAlignment(k)
    ensures AlignUp(x, k) % k == 0
    ensures x <= AlignUp(x, k) < x + k
  {
    var q := (x + k - 1) / k;
    assert AlignUp(x, k) == k * q;
    Multiple(q, k);
  }

  /** A multiple of `k` leaves no remainder, and one less than the next
      multiple leaves `k - 1`. */
  lemma Multiple(q: int, k: int)
    requires IsAlignment(k)
    ensures (k * q) % k == 0 && (k * q + k - 1) % k == k - 1
  {
    if k == 2 {
      Multiple2(q);
    } else if k == 4 {
      Multiple4(q);
    } else {
      Multiple8(q);
    }
  }

  lemma Multiple2(q: int)
    ensures (2 * q) % 2 == 0 && (2 * q + 1) % 2 == 1
  {
  }

  lemma Multiple4(q: int)
    ensures (4 * q) % 4 == 0 && (4 * q + 3) % 4 == 3
  {
  }

  lemma Multiple8(q: int)
    ensures (8 * q) % 8 == 0 && (8 * q + 7) % 8 == 7
  {
  }

  /** An aligned address is left where it is, so aligning twice is
      aligning once. */
  lemma AlignUpAligned(x: int, k: int)
    requires IsAlignment(k)
    ensures x % k == 0 ==> AlignUp(x, k) == x
    ensures AlignUp(AlignUp(x, k), k) == AlignUp(x, k)
  {
    AlignUpBounds(x, k);
    var a := AlignUp(x, k);
    Multiple(a / k, k);
    assert a == k * (a / k);
    if x % k == 0 {
      Multiple(x / k, k);
      assert x == k * (x / k);
    }
  }

  /** Rounding an address of the buffer is rounding its offset. */
  lemma AlignUpBase(o: int, k: int)
    requires IsAlignment(k)
    ensures AlignUp(CODE_BASE + o, k) == CODE_BASE + AlignUp(o, k)
  {
    var y := o + k - 1;
    if k == 2 {
      Shift2(y);
    } else if k == 4 {
      Shift4(y);
    } else {
      Shift8(y);
    }
  }

  /** CODE_BASE is a multiple of every alignment. */
  lemma Shift2(y: int)
    ensures (CODE_BASE + y) % 2 == y % 2
  {
  }

  lemma Shift4(y: int)
    ensures (CODE_BASE + y) % 4 == y % 4
  {
  }

  lemma Shift8(y: int)
    ensures (CODE_BASE + y) % 8 == y % 8
  {
  }

  //============================================================
  // Writers: the buffer after write_char/short/int/ptr
  //============================================================

  /** The buffer grown to the next multiple of `k`; the gap holds zeros
      (in C it holds whatever the allocation held). */
  function Pad(code: seq<Byte>, k: int): (r: seq<Byte>)
    requires IsAlignment(k)
    ensures |r| == AlignUp(|code|, k) && r[..|code|] == code
  {
    code + seq(AlignUp(|code|, k) - |code|, _ => 0)
  }

  /** write_char: the low eight bits of `c`. */
  function PutChar(code: seq<Byte>, c: int): (r: seq<Byte>)
    ensures Extends(r, code) && |r| == |code| + 1
  {
    code + [c % TWO_8]
  }

  /** write_short */
  function PutShort(code: seq<Byte>, s: int): (r: seq<Byte>)
    ensures Extends(r, code) && |r| == AlignUp(|code|, 2) + 2
  {
    Pad(code, 2) + Bytes16(s)
  }

  /** write_int */
  function PutInt(code: seq<Byte>, i: int): (r: seq<Byte>)
    ensures Extends(r, code) && |r| == AlignUp(|code|, 4) + 4
  {
    Pad(code, 4) + Bytes32(i)
  }

  /** write_ptr */
  function PutPtr(code: seq<Byte>, p: int): (r: seq<Byte>)
    ensures Extends(r, code) && |r| == AlignUp(|code|, 8) + 8
  {
    Pad(code, 8) + Bytes64(p)
  }

  //============================================================
  // Readers: next_char/short/int/ptr at an address
  //============================================================

  /** The offset of address `a`, when `n` bytes there lie in the buffer. */
  predicate InCode(code: seq<Byte>, a: int, n: nat)
  {
    CODE_BASE <= a && a - CODE_BASE + n <= |code|
  }

  /** next_char: an unsigned byte. */
  function NextChar(code: seq<Byte>, ip: int): (r: Result<(int, int)>)
    ensures r.Ok? ==> 0 <= r.value.0 < TWO_8 && r.value.1 == ip + 1
  {
    if !InCode(code, ip, 1) then Fatal(UNDEFINED)
    else Ok((code[ip - CODE_BASE], ip + 1))
  }

  /** next_short: an unsigned short at the next even address. */
  function NextShort(code: seq<Byte>, ip: int): (r: Result<(int, int)>)
    ensures r.Ok? ==> 0 <= r.value.0 < TWO_16 && r.value.1 == AlignUp(ip, 2) + 2
  {
    var a := AlignUp(ip, 2);
    if !InCode(code, a, 2) then Fatal(UNDEFINED)
    else Ok((LE16(code[a - CODE_BASE], code[a - CODE_BASE + 1]), a + 2))
  }

  /** next_int: a signed int at the next multiple of four. */
  function NextInt(code: seq<Byte>, ip: int): (r: Result<(int, int)>)
    ensures r.Ok? ==> IsInt32(r.value.0) && r.value.1 == AlignUp(ip, 4) + 4
  {
    var a := AlignUp(ip, 4);
    if !InCode(code, a, 4) then Fatal(UNDEFINED)
    else
      var o := a - CODE_BASE;
      Ok((LE32(code[o], code[o + 1], code[o + 2], code[o + 3]), a + 4))
  }

  /** next_ptr: a pointer-sized word at the next multiple of eight. */
  function NextPtr(code: seq<Byte>, ip: int): (r: Result<(int, int)>)
    ensures r.Ok? ==> 0 <= r.value.0 < TWO_64 && r.value.1 == AlignUp(ip, 8) + 8
  {
    var a := AlignUp(ip, 8);
    if !InCode(code, a, 8) then Fatal(UNDEFINED)
    else Ok((LE64(code[a - CODE_BASE..a - CODE_BASE + 8]), a + 8))
  }

  //============================================================
  // Read-back: a field is read from where it was written
  //============================================================

  /** `big` begins with `small`: later writes append after a field. */
  predicate Extends(big: seq<Byte>, small: seq<Byte>)
  {
    |small| <= |big| && big[..|small|] == small
  }

  lemma CharReadBack(code: seq<Byte>, c: int, big: seq<Byte>)
    requires Extends(big, PutChar(code, c))
    ensures NextChar(big, CODE_BASE + |code|) == Ok((c % TWO_8, CODE_BASE + |PutChar(code, c)|))
  {
    assert big[|code|] == PutChar(code, c)[|code|];
  }

  /** A short comes back unsigned: the value modulo 2^16. */
  lemma ShortReadBack(code: seq<Byte>, s: int, big: seq<Byte>)
    requires Extends(big, PutShort(code, s))
    ensures NextShort(big, CODE_BASE + |code|) == Ok((s % TWO_16, CODE_BASE + |PutShort(code, s)|))
  {
    var o := AlignUp(|code|, 2);
    AlignUpBase(|code|, 2);
    Short(s);
    var b := Bytes16(s);
    Tail(big, Pad(code, 2), b);
    hide Bytes16, AlignUp, PutShort, Pad;
    assert big[o] == b[0] && big[o + 1] == b[1] by {
      assert big[o..o + 2] == b;
    }
  }

  /** An int comes back as the C int it was. */
  lemma IntReadBack(code: seq<Byte>, i: int, big: seq<Byte>)
    requires Extends(big, PutInt(code, i))
    ensures NextInt(big, CODE_BASE + |code|) == Ok((Wrap32(i), CODE_BASE + |PutInt(code, i)|))
  {
    var o := AlignUp(|code|, 4);
    AlignUpBase(|code|, 4);
    Int(i);
    var b := Bytes32(i);
    Tail(big, Pad(code, 4), b);
    hide Bytes32, AlignUp, PutInt, Pad;
    assert big[o] == b[0] && big[o + 1] == b[1] && big[o + 2] == b[2] && big[o + 3] == b[3] by {
      assert big[o..o + 4] == b;
    }
  }

  /** A pointer comes back as the word it was. */
  lemma PtrReadBack(code: seq<Byte>, p: int, big: seq<Byte>)
    requires Extends(big, PutPtr(code, p))
    ensures NextPtr(big, CODE_BASE + |code|) == Ok((p % TWO_64, CODE_BASE + |PutPtr(code, p)|))
  {
    AlignUpBase(|code|, 8);
    Word(p);
    Tail(big, Pad(code, 8), Bytes64(p));
  }

  /** What follows a prefix of an extended buffer is read back as written. */
  lemma Tail(big: seq<Byte>, a: seq<Byte>, b: seq<Byte>)
    requires Extends(big, a + b)
    ensures big[|a|..|a| + |b|] == b
  {
    assert big[|a|..|a| + |b|] == (a + b)[|a|..];
  }

  /** The readers at an offset whose bytes are known, whatever was
      written around them. */
  lemma ShortAt(code: seq<Byte>, o: int, x: int)
    requires 0 <= o && o % 2 == 0 && o + 2 <= |code| && code[o..o + 2] == Bytes16(x)
    ensures NextShort(code, CODE_BASE + o) == Ok((x % TWO_16, CODE_BASE + o + 2))
  {
    AlignUpAligned(CODE_BASE + o, 2);
    assert code[o] == Bytes16(x)[0] && code[o + 1] == Bytes16(x)[1];
    Short(x);
  }

  lemma PtrAt(code: seq<Byte>, o: int, x: int)
    requires 0 <= o && o % 8 == 0 && o + 8 <= |code| && code[o..o + 8] == Bytes64(x)
    ensures NextPtr(code, CODE_BASE + o) == Ok((x % TWO_64, CODE_BASE + o + 8))
  {
    AlignUpAligned(CODE_BASE + o, 8);
    Word(x);
  }

  lemma ExtendsTrans(a: seq<Byte>, b: seq<Byte>, c: seq<Byte>)
    requires Extends(a, b) && Extends(b, c)
    ensures Extends(a, c)
  {
    assert a[..|c|] == a[..|b|][..|c|];
  }
}
