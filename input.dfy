/** Reading a binary input through a cursor.

    Both program readers consume their file one byte at a time through a
    hidden file position.  Here the file is a byte sequence and the
    position a cursor: each `ParseX(s, pos)` gives the item that starts at
    `pos` and the cursor after it, or the fatal end-of-file diagnostic.
    The encoders and the read-back lemmas are the partners of the parse
    functions, and the `Reader` class is the imperative cursor whose
    methods are proved to agree with them. */
module Input {
  import opened Wrappers
  import opened Bytes

  type Parsed<T> = Result<(T, nat)>

  /** A successful parse of `x` that leaves the cursor at `p`. */
  function Item<T>(x: T, p: nat): Parsed<T>
  {
    Ok((x, p))
  }

  /** read_byte: the next byte; the end of input is fatal. */
  function ParseByte(s: seq<Byte>, pos: nat): (r: Parsed<Byte>)
    ensures r.Ok? <==> pos < |s|
    ensures r.Ok? ==> r.value.1 == pos + 1
  {
    if pos < |s| then Ok((s[pos], pos + 1)) else Fatal("Unexpected end of file.")
  }

  /** read_byte stored into a (signed) C char, as the arities are. */
  function ParseChar(s: seq<Byte>, pos: nat): (r: Parsed<int>)
    ensures r.Ok? <==> pos < |s|
    ensures r.Ok? ==> r.value.1 == pos + 1 && -128 <= r.value.0 < 128
  {
    if pos < |s| then Ok((Signed8(s[pos]), pos + 1)) else Fatal("Unexpected end of file.")
  }

  /** read_short: two bytes, low first, unsigned. */
  function ParseShort(s: seq<Byte>, pos: nat): (r: Parsed<int>)
    ensures r.Ok? <==> pos + 2 <= |s|
    ensures r.Ok? ==> r.value.1 == pos + 2 && 0 <= r.value.0 < TWO_16
  {
    if pos + 2 <= |s| then Ok((LE16(s[pos], s[pos + 1]), pos + 2))
    else Fatal("Unexpected end of file.")
  }

  /** read_int: four bytes, low first, two's complement. */
  function ParseInt(s: seq<Byte>, pos: nat): (r: Parsed<int>)
    ensures r.Ok? <==> pos + 4 <= |s|
    ensures r.Ok? ==> r.value.1 == pos + 4 && IsInt32(r.value.0)
  {
    if pos + 4 <= |s| then Ok((LE32(s[pos], s[pos + 1], s[pos + 2], s[pos + 3]), pos + 4))
    else Fatal("Unexpected end of file.")
  }

  /** One byte of a string, as a character. */
  function ParseStrChar(s: seq<Byte>, pos: nat): (r: Parsed<char>)
    ensures r.Ok? <==> pos < |s|
    ensures r.Ok? ==> r.value.1 == pos + 1 && r.value.0 as int < 256
  {
    if pos < |s| then Ok((s[pos] as char, pos + 1)) else Fatal("Unexpected end of file.")
  }

  /** `n` items read one after the other; a count that is not positive
      reads nothing, as the reading loops do. */
  function ParseN<T>(item: (seq<Byte>, nat) -> Parsed<T>, s: seq<Byte>, pos: nat, n: int): (r: Parsed<seq<T>>)
    ensures r.Ok? ==> |r.value.0| == (if n < 0 then 0 else n)
    decreases n
  {
    if n <= 0 then Ok(([], pos))
    else
      var first :- item(s, pos);
      var rest :- ParseN(item, s, first.1, n - 1);
      Ok(([first.0] + rest.0, rest.1))
  }


  /** Items that each consume exactly `w` bytes make a list that consumes
      exactly `w` bytes per item. */
  lemma {:induction false} ParseNConsumes<T>(item: (seq<Byte>, nat) -> Parsed<T>, w: nat, s: seq<Byte>, pos: nat, n: int)
    requires forall p: nat :: item(s, p).Ok? ==> item(s, p).value.1 == p + w
    ensures ParseN(item, s, pos, n).Ok? ==>
              ParseN(item, s, pos, n).value.1 == pos + w * |ParseN(item, s, pos, n).value.0|
    decreases n
  {
    if n > 0 && item(s, pos).Ok? {
      ParseNConsumes(item, w, s, item(s, pos).value.1, n - 1);
    }
  }

  /** Items that never move the cursor back make a list that never does. */
  lemma {:induction false} ParseNAdvances<T>(item: (seq<Byte>, nat) -> Parsed<T>, s: seq<Byte>, pos: nat, n: int)
    requires forall p: nat :: item(s, p).Ok? ==> p <= item(s, p).value.1
    ensures ParseN(item, s, pos, n).Ok? ==> pos <= ParseN(item, s, pos, n).value.1
    decreases n
  {
    if n > 0 && item(s, pos).Ok? {
      ParseNAdvances(item, s, item(s, pos).value.1, n - 1);
    }
  }

  /** read_string: an int length, then that many bytes; it consumes the
      length and exactly one byte per character read. */
  function ParseString(s: seq<Byte>, pos: nat): (r: Parsed<string>)
    ensures r.Ok? ==> r.value.1 == pos + 4 + |r.value.0|
  {
    var len :- ParseInt(s, pos);
    ParseNConsumes(ParseStrChar, 1, s, len.1, len.0);
    ParseN(ParseStrChar, s, len.1, len.0)
  }

  lemma ParseStringStep(s: seq<Byte>, pos: nat, str: string)
    requires ParseInt(s, pos) == Item(|str|, pos + 4)
    requires ParseN(ParseStrChar, s, pos + 4, |str|) == Item(str, pos + 4 + |Concat(StrCharBytes, str)|)
    ensures ParseString(s, pos) == Item(str, pos + |EncodeString(str)|)
  {
  }

  //============================================================
  // Encodings
  //============================================================

  predicate IsShort(x: int) { 0 <= x < TWO_16 }

  predicate IsChar(x: int) { -128 <= x < 128 }

  /** The encodings of the items of a list, one after the other. */
  function Concat<T>(enc: T -> seq<Byte>, xs: seq<T>): seq<Byte>
  {
    if xs == [] then [] else enc(xs[0]) + Concat(enc, xs[1..])
  }

  lemma ConcatCons<T>(enc: T -> seq<Byte>, xs: seq<T>)
    requires xs != []
    ensures Concat(enc, xs) == enc(xs[0]) + Concat(enc, xs[1..])
    ensures |Concat(enc, xs)| == |enc(xs[0])| + |Concat(enc, xs[1..])|
  {
  }

  function CharBytes(x: int): seq<Byte>
  {
    [x % TWO_8]
  }

  function StrCharBytes(c: char): seq<Byte>
  {
    [(c as int) % TWO_8]
  }

  predicate IsByteString(str: string)
  {
    |str| < TWO_31 && forall k :: 0 <= k < |str| ==> str[k] as int < 256
  }

  /** A string as the readers expect it: an int length, then its bytes. */
  function EncodeString(str: string): seq<Byte>
  {
    Bytes32(|str|) + Concat(StrCharBytes, str)
  }

  lemma EncodeStringLength(str: string)
    ensures |EncodeString(str)| == 4 + |Concat(StrCharBytes, str)|
  {
  }

  //============================================================
  // Read-back lemmas
  //============================================================

  /** `e` sits in `s` at offset `pos`. */
  predicate Occurs(e: seq<Byte>, s: seq<Byte>, pos: nat)
  {
    pos + |e| <= |s| && s[pos..pos + |e|] == e
  }

  lemma OccursSplit(a: seq<Byte>, b: seq<Byte>, s: seq<Byte>, pos: nat)
    requires Occurs(a + b, s, pos)
    ensures Occurs(a, s, pos) && Occurs(b, s, pos + |a|)
  {
    assert s[pos..pos + |a|] == (a + b)[..|a|];
    assert s[pos + |a|..pos + |a| + |b|] == (a + b)[|a|..];
  }

  lemma ReadBackShort(x: int, s: seq<Byte>, pos: nat)
    requires IsShort(x) && Occurs(Bytes16(x), s, pos)
    ensures ParseShort(s, pos) == Item(x, pos + 2)
  {
    assert s[pos] == Bytes16(x)[0] && s[pos + 1] == Bytes16(x)[1];
    Short(x);
  }

  lemma ReadBackInt(x: int, s: seq<Byte>, pos: nat)
    requires IsInt32(x) && Occurs(Bytes32(x), s, pos)
    ensures ParseInt(s, pos) == Item(x, pos + 4)
  {
    var e := Bytes32(x);
    assert s[pos] == e[0] && s[pos + 1] == e[1] && s[pos + 2] == e[2] && s[pos + 3] == e[3];
    Int(x);
  }

  lemma ReadBackChar(x: int, s: seq<Byte>, pos: nat)
    requires IsChar(x) && Occurs(CharBytes(x), s, pos)
    ensures ParseChar(s, pos) == Item(x, pos + 1)
  {
    assert s[pos] == CharBytes(x)[0];
  }

  /** A list reads back when its first item does and the rest of it does. */
  lemma ParseNCons<T>(item: (seq<Byte>, nat) -> Parsed<T>, s: seq<Byte>, pos: nat,
                      xs: seq<T>, p1: nat, end: nat)
    requires xs != [] && item(s, pos) == Item(xs[0], p1)
    requires ParseN(item, s, p1, |xs[1..]|) == Item(xs[1..], end)
    ensures ParseN(item, s, pos, |xs|) == Item(xs, end)
  {
    assert [xs[0]] + xs[1..] == xs;
  }

  lemma {:induction false} ReadBackChars(str: string, s: seq<Byte>, pos: nat)
    requires forall k :: 0 <= k < |str| ==> str[k] as int < 256
    requires Occurs(Concat(StrCharBytes, str), s, pos)
    ensures ParseN(ParseStrChar, s, pos, |str|) == Item(str, pos + |Concat(StrCharBytes, str)|)
  {
    if str != [] {
      ConcatCons(StrCharBytes, str);
      OccursSplit(StrCharBytes(str[0]), Concat(StrCharBytes, str[1..]), s, pos);
      assert s[pos] == StrCharBytes(str[0])[0];
      ReadBackChars(str[1..], s, pos + 1);
      ParseNCons(ParseStrChar, s, pos, str, pos + 1, pos + 1 + |Concat(StrCharBytes, str[1..])|);
    }
  }

  lemma ReadBackString(str: string, s: seq<Byte>, pos: nat)
    requires IsByteString(str) && Occurs(EncodeString(str), s, pos)
    ensures ParseString(s, pos) == Item(str, pos + |EncodeString(str)|)
  {
    OccursSplit(Bytes32(|str|), Concat(StrCharBytes, str), s, pos);
    ReadBackInt(|str|, s, pos);
    ReadBackChars(str, s, pos + 4);
    ParseStringStep(s, pos, str);
  }

  //============================================================
  // The cursor
  //============================================================

  /** The outcome of a reading method agrees with a parse function: the
      same success, the same item, and the cursor left after it. */
  predicate Tracks<T(==)>(r: Result<T>, spec: Parsed<T>, pos: nat)
  {
    (r.Ok? <==> spec.Ok?) && (r.Ok? ==> spec.value == (r.value, pos))
  }

  /** Prefixes the items already read to what the rest of a list gives. */
  function Prepend<T>(acc: seq<T>, rest: Parsed<seq<T>>): Parsed<seq<T>>
  {
    match rest
    case Ok((items, p)) => Ok((acc + items, p))
    case Fatal(m) => Fatal(m)
  }

  /** One more item read inside a list keeps the prefix invariant. */
  lemma PrependStep<T>(item: (seq<Byte>, nat) -> Parsed<T>, s: seq<Byte>, acc: seq<T>, pos: nat, n: int)
    requires n > 0
    ensures item(s, pos).Fatal? ==> Prepend(acc, ParseN(item, s, pos, n)).Fatal?
    ensures item(s, pos).Ok? ==>
              Prepend(acc, ParseN(item, s, pos, n))
              == Prepend(acc + [item(s, pos).value.0], ParseN(item, s, item(s, pos).value.1, n - 1))
  {
    if item(s, pos).Ok? {
      var x := item(s, pos).value.0;
      match ParseN(item, s, item(s, pos).value.1, n - 1)
      case Ok((rest, p)) => assert acc + ([x] + rest) == (acc + [x]) + rest;
      case Fatal(_) =>
    }
  }

  lemma PrependDone<T>(item: (seq<Byte>, nat) -> Parsed<T>, s: seq<Byte>, acc: seq<T>, pos: nat, n: int)
    requires n <= 0
    ensures Prepend(acc, ParseN(item, s, pos, n)) == Item(acc, pos)
  {
    assert acc + [] == acc;
  }

  lemma PrependNil<T>(r: Parsed<seq<T>>)
    ensures Prepend([], r) == r
  {
    match r
    case Ok((items, p)) => assert [] + items == items;
    case Fatal(_) =>
  }

  class Reader {
    const input: seq<Byte>
    var pos: nat

    constructor (input: seq<Byte>)
      ensures this.input == input && pos == 0
    {
      this.input := input;
      pos := 0;
    }

    method ReadByte() returns (r: Result<Byte>)
      modifies this
      ensures Tracks(r, ParseByte(input, old(pos)), pos)
    {
      if pos >= |input| {
        return Fatal("Unexpected end of file.");
      }
      r := Ok(input[pos]);
      pos := pos + 1;
    }

    method ReadChar() returns (r: Result<int>)
      modifies this
      ensures Tracks(r, ParseChar(input, old(pos)), pos)
    {
      var b :- ReadByte();
      r := Ok(Signed8(b));
    }

    method ReadShort() returns (r: Result<int>)
      modifies this
      ensures Tracks(r, ParseShort(input, old(pos)), pos)
    {
      var b1 :- ReadByte();
      var b2 :- ReadByte();
      r := Ok(LE16(b1, b2));
    }

    method ReadInt() returns (r: Result<int>)
      modifies this
      ensures Tracks(r, ParseInt(input, old(pos)), pos)
    {
      var b1 :- ReadByte();
      var b2 :- ReadByte();
      var b3 :- ReadByte();
      var b4 :- ReadByte();
      r := Ok(LE32(b1, b2, b3, b4));
    }

    method ReadString() returns (r: Result<string>)
      modifies this
      ensures Tracks(r, ParseString(input, old(pos)), pos)
    {
      var len :- ReadInt();
      ghost var start := pos;
      PrependNil(ParseN(ParseStrChar, input, pos, len));
      var str: string := [];
      var i := 0;
      while i < len
        invariant 0 <= i && (i <= len || i == 0)
        invariant ParseN(ParseStrChar, input, start, len) ==
                  Prepend(str, ParseN(ParseStrChar, input, pos, len - i))
      {
        PrependStep(ParseStrChar, input, str, pos, len - i);
        var b := ReadByte();
        if b.Fatal? {
          return Fatal(b.msg);
        }
        str := str + [b.value as char];
        i := i + 1;
      }
      PrependDone(ParseStrChar, input, str, pos, len - i);
      r := Ok(str);
    }

  }
}
