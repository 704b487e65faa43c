/** The binary program reader.

    A program file is a pool of constant values, the list of global slot
    names and an entry method index.  The reader is specified by parse
    functions over the file's bytes and a cursor, `ParseX(s, pos)` giving
    the decoded item and the cursor after it; the encoder `EncodeX` is
    their partner, and the round-trip lemmas show that every well-formed
    item is read back exactly from its encoding.  The `Reader` class
    advances a cursor the way the reader advances its input file, and
    each of its methods is proved to agree with the parse function. */
module Bytecode {
  import opened Wrappers
  import opened Bytes
  import opened Input

  //============================================================
  // The program representation
  //============================================================

  datatype Ins =
    | LabelIns(name: int)
    | LitIns(idx: int)
    | PrintfIns(format: int, arity: int)
    | ArrayIns
    | ObjectIns(cls: int)
    | SlotIns(name: int)
    | SetSlotIns(name: int)
    | CallSlotIns(name: int, arity: int)
    | CallIns(name: int, arity: int)
    | SetLocalIns(idx: int)
    | GetLocalIns(idx: int)
    | SetGlobalIns(name: int)
    | GetGlobalIns(name: int)
    | BranchIns(name: int)
    | GotoIns(name: int)
    | ReturnIns
    | DropIns

  datatype Value =
    | IntValue(value: int)
    | NullValue
    | StringValue(str: string)
    | MethodValue(name: int, nargs: int, nlocals: int, code: seq<Ins>)
    | SlotValue(name: int)
    | ClassValue(slots: seq<int>)

  datatype Program = Program(values: seq<Value>, slots: seq<int>, entry: int)

  /** Opcodes, in the order of the instruction set. */
  const LABEL_OP := 0
  const LIT_OP := 1
  const PRINTF_OP := 2
  const ARRAY_OP := 3
  const OBJECT_OP := 4
  const SLOT_OP := 5
  const SET_SLOT_OP := 6
  const CALL_SLOT_OP := 7
  const CALL_OP := 8
  const SET_LOCAL_OP := 9
  const GET_LOCAL_OP := 10
  const SET_GLOBAL_OP := 11
  const GET_GLOBAL_OP := 12
  const BRANCH_OP := 13
  const GOTO_OP := 14
  const RETURN_OP := 15
  const DROP_OP := 16

  /** Value tags. */
  const INT_VAL := 0
  const NULL_VAL := 1
  const STRING_VAL := 2
  const METHOD_VAL := 3
  const SLOT_VAL := 4
  const CLASS_VAL := 5

  //============================================================
  // Parse functions: item and cursor after it
  //============================================================

  /** read_ins: an opcode byte, then the operands of that opcode. */
  function ParseIns(s: seq<Byte>, pos: nat): (r: Parsed<Ins>)
    ensures r.Ok? ==> pos < r.value.1 <= |s|
  {
    var op :- ParseByte(s, pos);
    var p := op.1;
    match op.0
    case 0 => var x :- ParseShort(s, p); Ok((LabelIns(x.0), x.1))
    case 1 => var x :- ParseShort(s, p); Ok((LitIns(x.0), x.1))
    case 2 =>
      var x :- ParseShort(s, p);
      var y :- ParseChar(s, x.1);
      Ok((PrintfIns(x.0, y.0), y.1))
    case 3 => Ok((ArrayIns, p))
    case 4 => var x :- ParseShort(s, p); Ok((ObjectIns(x.0), x.1))
    case 5 => var x :- ParseShort(s, p); Ok((SlotIns(x.0), x.1))
    case 6 => var x :- ParseShort(s, p); Ok((SetSlotIns(x.0), x.1))
    case 7 =>
      var x :- ParseShort(s, p);
      var y :- ParseChar(s, x.1);
      Ok((CallSlotIns(x.0, y.0), y.1))
    case 8 =>
      var x :- ParseShort(s, p);
      var y :- ParseChar(s, x.1);
      Ok((CallIns(x.0, y.0), y.1))
    case 9 => var x :- ParseShort(s, p); Ok((SetLocalIns(x.0), x.1))
    case 10 => var x :- ParseShort(s, p); Ok((GetLocalIns(x.0), x.1))
    case 11 => var x :- ParseShort(s, p); Ok((SetGlobalIns(x.0), x.1))
    case 12 => var x :- ParseShort(s, p); Ok((GetGlobalIns(x.0), x.1))
    case 13 => var x :- ParseShort(s, p); Ok((BranchIns(x.0), x.1))
    case 14 => var x :- ParseShort(s, p); Ok((GotoIns(x.0), x.1))
    case 15 => Ok((ReturnIns, p))
    case 16 => Ok((DropIns, p))
    case _ => Fatal("Unrecognized Opcode")
  }

  /** read_code: an int count of instructions, then the instructions. */
  function ParseCode(s: seq<Byte>, pos: nat): Parsed<seq<Ins>>
  {
    var n :- ParseInt(s, pos);
    ParseN(ParseIns, s, n.1, n.0)
  }

  /** read_slots: a short count, then that many shorts. */
  function ParseSlots(s: seq<Byte>, pos: nat): Parsed<seq<int>>
  {
    var n :- ParseShort(s, pos);
    ParseN(ParseShort, s, n.1, n.0)
  }

  /** read_value: a tag byte, then the fields of that kind of value. */
  function ParseValue(s: seq<Byte>, pos: nat): Parsed<Value>
  {
    var tag :- ParseByte(s, pos);
    var p := tag.1;
    match tag.0
    case 0 => var x :- ParseInt(s, p); Ok((IntValue(x.0), x.1))
    case 1 => Ok((NullValue, p))
    case 2 => var x :- ParseString(s, p); Ok((StringValue(x.0), x.1))
    case 3 =>
      var name :- ParseShort(s, p);
      var nargs :- ParseChar(s, name.1);
      var nlocals :- ParseShort(s, nargs.1);
      var code :- ParseCode(s, nlocals.1);
      Ok((MethodValue(name.0, nargs.0, nlocals.0, code.0), code.1))
    case 4 => var x :- ParseShort(s, p); Ok((SlotValue(x.0), x.1))
    case 5 =>
      var x :- ParseSlots(s, p);
      Ok((ClassValue(x.0), x.1))
    case _ => Fatal("Unrecognized value tag")
  }

  /** read_values: a short count, then that many values. */
  function ParseValues(s: seq<Byte>, pos: nat): Parsed<seq<Value>>
  {
    var n :- ParseShort(s, pos);
    ParseN(ParseValue, s, n.1, n.0)
  }

  /** read_program: the values, then the globals, then the entry index. */
  function ParseProgram(s: seq<Byte>, pos: nat): Parsed<Program>
  {
    var values :- ParseValues(s, pos);
    var slots :- ParseSlots(s, values.1);
    var entry :- ParseShort(s, slots.1);
    Ok((Program(values.0, slots.0, entry.0), entry.1))
  }

  //============================================================
  // The encoder
  //============================================================

  /** What the file format can represent. */
  predicate WfIns(i: Ins)
  {
    match i
    case PrintfIns(f, a) => IsShort(f) && IsChar(a)
    case CallSlotIns(n, a) => IsShort(n) && IsChar(a)
    case CallIns(n, a) => IsShort(n) && IsChar(a)
    case LabelIns(x) => IsShort(x)
    case LitIns(x) => IsShort(x)
    case ObjectIns(x) => IsShort(x)
    case SlotIns(x) => IsShort(x)
    case SetSlotIns(x) => IsShort(x)
    case SetLocalIns(x) => IsShort(x)
    case GetLocalIns(x) => IsShort(x)
    case SetGlobalIns(x) => IsShort(x)
    case GetGlobalIns(x) => IsShort(x)
    case BranchIns(x) => IsShort(x)
    case GotoIns(x) => IsShort(x)
    case _ => true
  }

  predicate WfValue(v: Value)
  {
    match v
    case IntValue(x) => IsInt32(x)
    case NullValue => true
    case StringValue(str) => IsByteString(str)
    case MethodValue(name, nargs, nlocals, code) =>
      IsShort(name) && IsChar(nargs) && IsShort(nlocals) && |code| < TWO_31
      && forall k :: 0 <= k < |code| ==> WfIns(code[k])
    case SlotValue(name) => IsShort(name)
    case ClassValue(slots) => |slots| < TWO_16 && forall k :: 0 <= k < |slots| ==> IsShort(slots[k])
  }

  predicate WfProgram(p: Program)
  {
    |p.values| < TWO_16 && (forall k :: 0 <= k < |p.values| ==> WfValue(p.values[k]))
    && |p.slots| < TWO_16 && (forall k :: 0 <= k < |p.slots| ==> IsShort(p.slots[k]))
    && IsShort(p.entry)
  }

  function OpOf(i: Ins): Byte
  {
    match i
    case LabelIns(_) => LABEL_OP
    case LitIns(_) => LIT_OP
    case PrintfIns(_, _) => PRINTF_OP
    case ArrayIns => ARRAY_OP
    case ObjectIns(_) => OBJECT_OP
    case SlotIns(_) => SLOT_OP
    case SetSlotIns(_) => SET_SLOT_OP
    case CallSlotIns(_, _) => CALL_SLOT_OP
    case CallIns(_, _) => CALL_OP
    case SetLocalIns(_) => SET_LOCAL_OP
    case GetLocalIns(_) => GET_LOCAL_OP
    case SetGlobalIns(_) => SET_GLOBAL_OP
    case GetGlobalIns(_) => GET_GLOBAL_OP
    case BranchIns(_) => BRANCH_OP
    case GotoIns(_) => GOTO_OP
    case ReturnIns => RETURN_OP
    case DropIns => DROP_OP
  }

  function EncodeIns(i: Ins): seq<Byte>
  {
    [OpOf(i)] +
    match i
    case PrintfIns(f, a) => Bytes16(f) + CharBytes(a)
    case CallSlotIns(n, a) => Bytes16(n) + CharBytes(a)
    case CallIns(n, a) => Bytes16(n) + CharBytes(a)
    case LabelIns(x) => Bytes16(x)
    case LitIns(x) => Bytes16(x)
    case ObjectIns(x) => Bytes16(x)
    case SlotIns(x) => Bytes16(x)
    case SetSlotIns(x) => Bytes16(x)
    case SetLocalIns(x) => Bytes16(x)
    case GetLocalIns(x) => Bytes16(x)
    case SetGlobalIns(x) => Bytes16(x)
    case GetGlobalIns(x) => Bytes16(x)
    case BranchIns(x) => Bytes16(x)
    case GotoIns(x) => Bytes16(x)
    case _ => []
  }

  function EncodeCode(code: seq<Ins>): seq<Byte>
  {
    Bytes32(|code|) + Concat(EncodeIns, code)
  }

  function EncodeSlots(slots: seq<int>): seq<Byte>
  {
    Bytes16(|slots|) + Concat(Bytes16, slots)
  }

  function EncodeValue(v: Value): seq<Byte>
  {
    match v
    case IntValue(x) => [INT_VAL as Byte] + Bytes32(x)
    case NullValue => [NULL_VAL as Byte]
    case StringValue(str) => [STRING_VAL as Byte] + EncodeString(str)
    case MethodValue(name, nargs, nlocals, code) =>
      [METHOD_VAL as Byte] + (Bytes16(name) + (CharBytes(nargs) + (Bytes16(nlocals) + EncodeCode(code))))
    case SlotValue(name) => [SLOT_VAL as Byte] + Bytes16(name)
    case ClassValue(slots) => [CLASS_VAL as Byte] + EncodeSlots(slots)
  }

  function EncodeValues(values: seq<Value>): seq<Byte>
  {
    Bytes16(|values|) + Concat(EncodeValue, values)
  }

  function EncodeProgram(p: Program): seq<Byte>
  {
    EncodeValues(p.values) + (EncodeSlots(p.slots) + Bytes16(p.entry))
  }

  lemma ParseCodeStep(s: seq<Byte>, pos: nat, xs: seq<Ins>)
    requires ParseInt(s, pos) == Item(|xs|, pos + 4)
    requires ParseN(ParseIns, s, pos + 4, |xs|) == Item(xs, pos + 4 + |Concat(EncodeIns, xs)|)
    ensures ParseCode(s, pos) == Item(xs, pos + |EncodeCode(xs)|)
  {
    hide ParseIns, EncodeIns, WfIns, OpOf;
  }

  lemma ParseSlotsStep(s: seq<Byte>, pos: nat, xs: seq<int>)
    requires ParseShort(s, pos) == Item(|xs|, pos + 2)
    requires ParseN(ParseShort, s, pos + 2, |xs|) == Item(xs, pos + 2 + |Concat(Bytes16, xs)|)
    ensures ParseSlots(s, pos) == Item(xs, pos + |EncodeSlots(xs)|)
  {
    hide ParseIns, EncodeIns, WfIns, OpOf, ParseValue, EncodeValue, WfValue;
  }

  lemma ParseValuesStep(s: seq<Byte>, pos: nat, xs: seq<Value>)
    requires ParseShort(s, pos) == Item(|xs|, pos + 2)
    requires ParseN(ParseValue, s, pos + 2, |xs|) == Item(xs, pos + 2 + |Concat(EncodeValue, xs)|)
    ensures ParseValues(s, pos) == Item(xs, pos + |EncodeValues(xs)|)
  {
    hide ParseIns, EncodeIns, WfIns, OpOf, ParseValue, EncodeValue, WfValue;
  }

  //============================================================
  // Round trips
  //============================================================

  lemma {:induction false} ReadBackIns(i: Ins, s: seq<Byte>, pos: nat)
    requires WfIns(i) && Occurs(EncodeIns(i), s, pos)
    ensures ParseIns(s, pos) == Item(i, pos + |EncodeIns(i)|)
  {
    var e := EncodeIns(i);
    OccursSplit([OpOf(i)], e[1..], s, pos);
    assert s[pos] == OpOf(i);
    match i
    case PrintfIns(f, a) =>
      OccursSplit(Bytes16(f), CharBytes(a), s, pos + 1);
      ReadBackShort(f, s, pos + 1); ReadBackChar(a, s, pos + 3);
    case CallSlotIns(n, a) =>
      OccursSplit(Bytes16(n), CharBytes(a), s, pos + 1);
      ReadBackShort(n, s, pos + 1); ReadBackChar(a, s, pos + 3);
    case CallIns(n, a) =>
      OccursSplit(Bytes16(n), CharBytes(a), s, pos + 1);
      ReadBackShort(n, s, pos + 1); ReadBackChar(a, s, pos + 3);
    case LabelIns(x) => ReadBackShort(x, s, pos + 1);
    case LitIns(x) => ReadBackShort(x, s, pos + 1);
    case ObjectIns(x) => ReadBackShort(x, s, pos + 1);
    case SlotIns(x) => ReadBackShort(x, s, pos + 1);
    case SetSlotIns(x) => ReadBackShort(x, s, pos + 1);
    case SetLocalIns(x) => ReadBackShort(x, s, pos + 1);
    case GetLocalIns(x) => ReadBackShort(x, s, pos + 1);
    case SetGlobalIns(x) => ReadBackShort(x, s, pos + 1);
    case GetGlobalIns(x) => ReadBackShort(x, s, pos + 1);
    case BranchIns(x) => ReadBackShort(x, s, pos + 1);
    case GotoIns(x) => ReadBackShort(x, s, pos + 1);
    case ArrayIns =>
    case ReturnIns =>
    case DropIns =>
  }

  lemma {:induction false} ReadBackInsList(code: seq<Ins>, s: seq<Byte>, pos: nat)
    requires forall k :: 0 <= k < |code| ==> WfIns(code[k])
    requires Occurs(Concat(EncodeIns, code), s, pos)
    ensures ParseN(ParseIns, s, pos, |code|) == Item(code, pos + |Concat(EncodeIns, code)|)
  {
    hide ParseIns, EncodeIns, WfIns, OpOf;
    if code != [] {
      var p1 := pos + |EncodeIns(code[0])|;
      ConcatCons(EncodeIns, code);
      OccursSplit(EncodeIns(code[0]), Concat(EncodeIns, code[1..]), s, pos);
      ReadBackIns(code[0], s, pos);
      ReadBackInsList(code[1..], s, p1);
      ParseNCons(ParseIns, s, pos, code, p1, p1 + |Concat(EncodeIns, code[1..])|);
    }
  }

  lemma ReadBackCode(code: seq<Ins>, s: seq<Byte>, pos: nat)
    requires |code| < TWO_31 && forall k :: 0 <= k < |code| ==> WfIns(code[k])
    requires Occurs(EncodeCode(code), s, pos)
    ensures ParseCode(s, pos) == Item(code, pos + |EncodeCode(code)|)
  {
    hide ParseIns, EncodeIns, WfIns, OpOf;
    OccursSplit(Bytes32(|code|), Concat(EncodeIns, code), s, pos);
    ReadBackInt(|code|, s, pos);
    ReadBackInsList(code, s, pos + 4);
    ParseCodeStep(s, pos, code);
  }

  lemma {:induction false} ReadBackShortList(slots: seq<int>, s: seq<Byte>, pos: nat)
    requires forall k :: 0 <= k < |slots| ==> IsShort(slots[k])
    requires Occurs(Concat(Bytes16, slots), s, pos)
    ensures ParseN(ParseShort, s, pos, |slots|) == Item(slots, pos + |Concat(Bytes16, slots)|)
  {
    if slots != [] {
      ConcatCons(Bytes16, slots);
      OccursSplit(Bytes16(slots[0]), Concat(Bytes16, slots[1..]), s, pos);
      ReadBackShort(slots[0], s, pos);
      ReadBackShortList(slots[1..], s, pos + 2);
      ParseNCons(ParseShort, s, pos, slots, pos + 2, pos + 2 + |Concat(Bytes16, slots[1..])|);
    }
  }

  lemma ReadBackSlots(slots: seq<int>, s: seq<Byte>, pos: nat)
    requires |slots| < TWO_16 && forall k :: 0 <= k < |slots| ==> IsShort(slots[k])
    requires Occurs(EncodeSlots(slots), s, pos)
    ensures ParseSlots(s, pos) == Item(slots, pos + |EncodeSlots(slots)|)
  {
    hide ParseIns, EncodeIns, WfIns, OpOf, ParseValue, EncodeValue, WfValue;
    OccursSplit(Bytes16(|slots|), Concat(Bytes16, slots), s, pos);
    ReadBackShort(|slots|, s, pos);
    ReadBackShortList(slots, s, pos + 2);
    ParseSlotsStep(s, pos, slots);
  }

  lemma ReadBackLocalsAndCode(nlocals: int, code: seq<Ins>, s: seq<Byte>, q: nat)
    requires IsShort(nlocals)
    requires |code| < TWO_31 && forall k :: 0 <= k < |code| ==> WfIns(code[k])
    requires Occurs(Bytes16(nlocals) + EncodeCode(code), s, q)
    ensures ParseShort(s, q) == Item(nlocals, q + 2)
    ensures ParseCode(s, q + 2) == Item(code, q + 2 + |EncodeCode(code)|)
  {
    hide ParseIns, EncodeIns, WfIns, OpOf;
    OccursSplit(Bytes16(nlocals), EncodeCode(code), s, q);
    ReadBackShort(nlocals, s, q);
    ReadBackCode(code, s, q + 2);
  }

  /** The fields of a method value, after its tag. */
  lemma ReadBackMethodFields(name: int, nargs: int, nlocals: int, code: seq<Ins>, s: seq<Byte>, p: nat)
    requires IsShort(name) && IsChar(nargs) && IsShort(nlocals)
    requires |code| < TWO_31 && forall k :: 0 <= k < |code| ==> WfIns(code[k])
    requires Occurs(Bytes16(name) + (CharBytes(nargs) + (Bytes16(nlocals) + EncodeCode(code))), s, p)
    ensures ParseShort(s, p) == Item(name, p + 2)
    ensures ParseChar(s, p + 2) == Item(nargs, p + 3)
    ensures ParseShort(s, p + 3) == Item(nlocals, p + 5)
    ensures ParseCode(s, p + 5) == Item(code, p + 5 + |EncodeCode(code)|)
  {
    hide ParseIns, EncodeIns, WfIns, OpOf;
    OccursSplit(Bytes16(name), CharBytes(nargs) + (Bytes16(nlocals) + EncodeCode(code)), s, p);
    OccursSplit(CharBytes(nargs), Bytes16(nlocals) + EncodeCode(code), s, p + 2);
    ReadBackShort(name, s, p);
    ReadBackChar(nargs, s, p + 2);
    ReadBackLocalsAndCode(nlocals, code, s, p + 3);
  }

  lemma ReadBackMethodValue(v: Value, s: seq<Byte>, pos: nat)
    requires v.MethodValue? && WfValue(v) && Occurs(EncodeValue(v), s, pos)
    ensures ParseValue(s, pos) == Item(v, pos + |EncodeValue(v)|)
  {
    hide ParseIns, EncodeIns, WfIns, OpOf, ParseString, ParseSlots, ParseCode, EncodeString, EncodeSlots;
    var fields := Bytes16(v.name) + (CharBytes(v.nargs) + (Bytes16(v.nlocals) + EncodeCode(v.code)));
    OccursSplit([METHOD_VAL as Byte], fields, s, pos);
    assert s[pos] == METHOD_VAL;
    ReadBackMethodFields(v.name, v.nargs, v.nlocals, v.code, s, pos + 1);
  }

  lemma {:induction false} ReadBackValue(v: Value, s: seq<Byte>, pos: nat)
    requires WfValue(v) && Occurs(EncodeValue(v), s, pos)
    ensures ParseValue(s, pos) == Item(v, pos + |EncodeValue(v)|)
  {
    hide ParseIns, EncodeIns, WfIns, OpOf, ParseString, ParseSlots, ParseCode, EncodeString, EncodeSlots, EncodeCode;
    var e := EncodeValue(v);
    OccursSplit([e[0]], e[1..], s, pos);
    assert s[pos] == e[0];
    match v
    case IntValue(x) => ReadBackInt(x, s, pos + 1);
    case NullValue =>
    case StringValue(str) =>
      ReadBackString(str, s, pos + 1);
    case MethodValue(_, _, _, _) => ReadBackMethodValue(v, s, pos);
    case SlotValue(name) => ReadBackShort(name, s, pos + 1);
    case ClassValue(slots) => ReadBackSlots(slots, s, pos + 1);
  }

  lemma {:induction false} ReadBackValueList(values: seq<Value>, s: seq<Byte>, pos: nat)
    requires forall k :: 0 <= k < |values| ==> WfValue(values[k])
    requires Occurs(Concat(EncodeValue, values), s, pos)
    ensures ParseN(ParseValue, s, pos, |values|) == Item(values, pos + |Concat(EncodeValue, values)|)
  {
    hide ParseValue, EncodeValue, WfValue;
    if values != [] {
      var p1 := pos + |EncodeValue(values[0])|;
      ConcatCons(EncodeValue, values);
      OccursSplit(EncodeValue(values[0]), Concat(EncodeValue, values[1..]), s, pos);
      ReadBackValue(values[0], s, pos);
      ReadBackValueList(values[1..], s, p1);
      ParseNCons(ParseValue, s, pos, values, p1, p1 + |Concat(EncodeValue, values[1..])|);
    }
  }

  lemma ReadBackValues(values: seq<Value>, s: seq<Byte>, pos: nat)
    requires |values| < TWO_16 && forall k :: 0 <= k < |values| ==> WfValue(values[k])
    requires Occurs(EncodeValues(values), s, pos)
    ensures ParseValues(s, pos) == Item(values, pos + |EncodeValues(values)|)
  {
    hide ParseIns, EncodeIns, WfIns, OpOf, ParseValue, EncodeValue, WfValue;
    OccursSplit(Bytes16(|values|), Concat(EncodeValue, values), s, pos);
    ReadBackShort(|values|, s, pos);
    ReadBackValueList(values, s, pos + 2);
    ParseValuesStep(s, pos, values);
  }

  /** A well-formed program is read back exactly from its encoding,
      wherever the encoding sits. */
  lemma ReadBackProgramAt(prog: Program, s: seq<Byte>, pos: nat)
    requires WfProgram(prog) && Occurs(EncodeProgram(prog), s, pos)
    ensures ParseProgram(s, pos) == Item(prog, pos + |EncodeProgram(prog)|)
  {
    hide ParseIns, EncodeIns, WfIns, OpOf, ParseValue, EncodeValue, WfValue, ParseValues, ParseSlots, EncodeValues, EncodeSlots;
    var a := EncodeValues(prog.values);
    var c := EncodeSlots(prog.slots);
    var d := Bytes16(prog.entry);
    OccursSplit(a, c + d, s, pos);
    OccursSplit(c, d, s, pos + |a|);
    ReadBackValues(prog.values, s, pos);
    ReadBackSlots(prog.slots, s, pos + |a|);
    ReadBackShort(prog.entry, s, pos + |a| + |c|);
  }

  /** Every well-formed program is read back exactly from its encoding. */
  lemma ReadBackProgram(prog: Program)
    requires WfProgram(prog)
    ensures ParseProgram(EncodeProgram(prog), 0) == Item(prog, |EncodeProgram(prog)|)
  {
    hide ParseIns, EncodeIns, WfIns, OpOf, ParseValue, EncodeValue, WfValue;
    var s := EncodeProgram(prog);
    assert s[0..|s|] == s;
    ReadBackProgramAt(prog, s, 0);
  }

  //============================================================
  // The reader over a cursor
  //============================================================

  method ReadIns(rd: Reader) returns (r: Result<Ins>)
    modifies rd
    ensures Tracks(r, ParseIns(rd.input, old(rd.pos)), rd.pos)
  {
    var op :- rd.ReadByte();
    if op == LABEL_OP {
      var x :- rd.ReadShort(); r := Ok(LabelIns(x));
    } else if op == LIT_OP {
      var x :- rd.ReadShort(); r := Ok(LitIns(x));
    } else if op == PRINTF_OP {
      var x :- rd.ReadShort(); var y :- rd.ReadChar(); r := Ok(PrintfIns(x, y));
    } else if op == ARRAY_OP {
      r := Ok(ArrayIns);
    } else if op == OBJECT_OP {
      var x :- rd.ReadShort(); r := Ok(ObjectIns(x));
    } else if op == SLOT_OP {
      var x :- rd.ReadShort(); r := Ok(SlotIns(x));
    } else if op == SET_SLOT_OP {
      var x :- rd.ReadShort(); r := Ok(SetSlotIns(x));
    } else if op == CALL_SLOT_OP {
      var x :- rd.ReadShort(); var y :- rd.ReadChar(); r := Ok(CallSlotIns(x, y));
    } else if op == CALL_OP {
      var x :- rd.ReadShort(); var y :- rd.ReadChar(); r := Ok(CallIns(x, y));
    } else if op == SET_LOCAL_OP {
      var x :- rd.ReadShort(); r := Ok(SetLocalIns(x));
    } else if op == GET_LOCAL_OP {
      var x :- rd.ReadShort(); r := Ok(GetLocalIns(x));
    } else if op == SET_GLOBAL_OP {
      var x :- rd.ReadShort(); r := Ok(SetGlobalIns(x));
    } else if op == GET_GLOBAL_OP {
      var x :- rd.ReadShort(); r := Ok(GetGlobalIns(x));
    } else if op == BRANCH_OP {
      var x :- rd.ReadShort(); r := Ok(BranchIns(x));
    } else if op == GOTO_OP {
      var x :- rd.ReadShort(); r := Ok(GotoIns(x));
    } else if op == RETURN_OP {
      r := Ok(ReturnIns);
    } else if op == DROP_OP {
      r := Ok(DropIns);
    } else {
      r := Fatal("Unrecognized Opcode");
    }
  }

  method ReadCode(rd: Reader) returns (r: Result<seq<Ins>>)
    modifies rd
    ensures Tracks(r, ParseCode(rd.input, old(rd.pos)), rd.pos)
  {
    hide ParseIns;
    var n :- rd.ReadInt();
    ghost var start := rd.pos;
    PrependNil(ParseN(ParseIns, rd.input, rd.pos, n));
    var code: seq<Ins> := [];
    var i := 0;
    while i < n
      invariant 0 <= i && (i <= n || i == 0)
      invariant ParseN(ParseIns, rd.input, start, n) == Prepend(code, ParseN(ParseIns, rd.input, rd.pos, n - i))
    {
      PrependStep(ParseIns, rd.input, code, rd.pos, n - i);
      var x := ReadIns(rd);
      if x.Fatal? {
        return Fatal(x.msg);
      }
      code := code + [x.value];
      i := i + 1;
    }
    PrependDone(ParseIns, rd.input, code, rd.pos, n - i);
    r := Ok(code);
  }

  method ReadSlots(rd: Reader) returns (r: Result<seq<int>>)
    modifies rd
    ensures Tracks(r, ParseSlots(rd.input, old(rd.pos)), rd.pos)
  {
    hide ParseIns, ParseValue;
    var n :- rd.ReadShort();
    ghost var start := rd.pos;
    PrependNil(ParseN(ParseShort, rd.input, rd.pos, n));
    var slots: seq<int> := [];
    var i := 0;
    while i < n
      invariant 0 <= i <= n
      invariant ParseN(ParseShort, rd.input, start, n) == Prepend(slots, ParseN(ParseShort, rd.input, rd.pos, n - i))
    {
      PrependStep(ParseShort, rd.input, slots, rd.pos, n - i);
      var x := rd.ReadShort();
      if x.Fatal? {
        return Fatal(x.msg);
      }
      slots := slots + [x.value];
      i := i + 1;
    }
    PrependDone(ParseShort, rd.input, slots, rd.pos, n - i);
    r := Ok(slots);
  }

  method ReadValue(rd: Reader) returns (r: Result<Value>)
    modifies rd
    ensures Tracks(r, ParseValue(rd.input, old(rd.pos)), rd.pos)
  {
    hide ParseIns;
    var tag :- rd.ReadByte();
    if tag == INT_VAL {
      var x :- rd.ReadInt(); r := Ok(IntValue(x));
    } else if tag == NULL_VAL {
      r := Ok(NullValue);
    } else if tag == STRING_VAL {
      var x :- rd.ReadString(); r := Ok(StringValue(x));
    } else if tag == METHOD_VAL {
      var name :- rd.ReadShort();
      var nargs :- rd.ReadChar();
      var nlocals :- rd.ReadShort();
      var code :- ReadCode(rd);
      r := Ok(MethodValue(name, nargs, nlocals, code));
    } else if tag == SLOT_VAL {
      var x :- rd.ReadShort(); r := Ok(SlotValue(x));
    } else if tag == CLASS_VAL {
      var x :- ReadSlots(rd); r := Ok(ClassValue(x));
    } else {
      r := Fatal("Unrecognized value tag");
    }
  }

  method ReadValues(rd: Reader) returns (r: Result<seq<Value>>)
    modifies rd
    ensures Tracks(r, ParseValues(rd.input, old(rd.pos)), rd.pos)
  {
    hide ParseValue, ParseIns;
    var n :- rd.ReadShort();
    ghost var start := rd.pos;
    PrependNil(ParseN(ParseValue, rd.input, rd.pos, n));
    var values: seq<Value> := [];
    var i := 0;
    while i < n
      invariant 0 <= i <= n
      invariant ParseN(ParseValue, rd.input, start, n) == Prepend(values, ParseN(ParseValue, rd.input, rd.pos, n - i))
    {
      PrependStep(ParseValue, rd.input, values, rd.pos, n - i);
      var x := ReadValue(rd);
      if x.Fatal? {
        return Fatal(x.msg);
      }
      values := values + [x.value];
      i := i + 1;
    }
    PrependDone(ParseValue, rd.input, values, rd.pos, n - i);
    r := Ok(values);
  }

  method ReadProgram(rd: Reader) returns (r: Result<Program>)
    modifies rd
    ensures Tracks(r, ParseProgram(rd.input, old(rd.pos)), rd.pos)
  {
    hide ParseValue, ParseIns;
    var values :- ReadValues(rd);
    var slots :- ReadSlots(rd);
    var entry :- rd.ReadShort();
    r := Ok(Program(values, slots, entry));
  }
}
