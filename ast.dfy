/** The abstract syntax tree of a Feeny program and its binary reader.

    A tree file is a scope statement written prefix-first: every node is
    an int tag followed by its fields in declaration order; names and
    formats are length-prefixed strings and every list is an int count
    followed by that many elements.  The readers are functions over a
    byte sequence and a cursor (`ParseExp`, `ParseSlot`, `ParseScope`);
    the encoders are their partners, and the `Read*` methods are the
    cursor-driven readers, proved to agree with the functions. */
module Ast {
  import opened Wrappers
  import opened Bytes
  import opened Input

  const INT_EXP: int := 0
  const NULL_EXP: int := 1
  const PRINTF_EXP: int := 2
  const ARRAY_EXP: int := 3
  const OBJECT_EXP: int := 4
  const SLOT_EXP: int := 5
  const SET_SLOT_EXP: int := 6
  const CALL_SLOT_EXP: int := 7
  const CALL_EXP: int := 8
  const SET_EXP: int := 9
  const IF_EXP: int := 10
  const WHILE_EXP: int := 11
  const REF_EXP: int := 12
  const VAR_STMT: int := 13
  const FN_STMT: int := 14
  const SEQ_STMT: int := 15
  const EXP_STMT: int := 16

  datatype Exp =
    | IntExp(value: int)
    | NullExp
    | PrintfExp(format: string, exps: seq<Exp>)
    | ArrayExp(length: Exp, init: Exp)
    | ObjectExp(parent: Exp, slots: seq<SlotStmt>)
    | SlotExp(name: string, exp: Exp)
    | SetSlotExp(name: string, exp: Exp, newValue: Exp)
    | CallSlotExp(name: string, exp: Exp, args: seq<Exp>)
    | CallExp(name: string, args: seq<Exp>)
    | SetExp(name: string, exp: Exp)
    | IfExp(pred: Exp, conseq: ScopeStmt, alt: ScopeStmt)
    | WhileExp(pred: Exp, body: ScopeStmt)
    | RefExp(name: string)

  /** A member of an object expression: a variable or a method. */
  datatype SlotStmt =
    | SlotVar(name: string, exp: Exp)
    | SlotMethod(name: string, args: seq<string>, body: ScopeStmt)

  datatype ScopeStmt =
    | ScopeVar(name: string, exp: Exp)
    | ScopeFn(name: string, args: seq<string>, body: ScopeStmt)
    | ScopeSeq(a: ScopeStmt, b: ScopeStmt)
    | ScopeExp(exp: Exp)

  //============================================================
  // Reading
  //============================================================

  /** What is left of the input after `pos`; every reader consumes at
      least its 4-byte tag before reading a sub-tree, so this decreases. */
  function Rest(s: seq<Byte>, pos: nat): nat
  {
    if pos <= |s| then |s| - pos else 0
  }

  /** read_strings: `n` strings one after the other. */
  function ParseStrings(s: seq<Byte>, pos: nat, n: int): (r: Parsed<seq<string>>)
    ensures r.Ok? ==> pos <= r.value.1 && |r.value.0| == (if n < 0 then 0 else n)
  {
    ParseNAdvances(ParseString, s, pos, n);
    ParseN(ParseString, s, pos, n)
  }

  /** read_exp: an int tag among INT_EXP..REF_EXP, then the fields of that
      expression in declaration order; any other tag is fatal. */
  function ParseExp(s: seq<Byte>, pos: nat): (r: Parsed<Exp>)
    ensures r.Ok? ==> pos < r.value.1
    decreases Rest(s, pos), 0, 0
  {
    var tag :- ParseInt(s, pos);
    var p := tag.1;
    match tag.0
    case 0 => var v :- ParseInt(s, p); Ok((IntExp(v.0), v.1))
    case 1 => Ok((NullExp, p))
    case 2 => ParsePrintfExp(s, p)
    case 3 => ParseArrayExp(s, p)
    case 4 => ParseObjectExp(s, p)
    case 5 => var f :- ParseNamed(s, p); Ok((SlotExp(f.0.0, f.0.1), f.1))
    case 6 => ParseSetSlotExp(s, p)
    case 7 => ParseCallSlotExp(s, p)
    case 8 => ParseCallExp(s, p)
    case 9 => var f :- ParseNamed(s, p); Ok((SetExp(f.0.0, f.0.1), f.1))
    case 10 => ParseIfExp(s, p)
    case 11 => ParseWhileExp(s, p)
    case 12 => var name :- ParseString(s, p); Ok((RefExp(name.0), name.1))
    case _ => Fatal("Expression with unrecognized tag")
  }

  // The fields of each compound expression, read after its tag.

  function ParsePrintfExp(s: seq<Byte>, p: nat): (r: Parsed<Exp>)
    ensures r.Ok? ==> p <= r.value.1 && r.value.0.PrintfExp?
    decreases Rest(s, p), 2, 0
  {
    var format :- ParseString(s, p);
    var n :- ParseInt(s, format.1);
    var exps :- ParseExps(s, n.1, n.0);
    Ok((PrintfExp(format.0, exps.0), exps.1))
  }

  function ParseArrayExp(s: seq<Byte>, p: nat): (r: Parsed<Exp>)
    ensures r.Ok? ==> p <= r.value.1 && r.value.0.ArrayExp?
    decreases Rest(s, p), 2, 0
  {
    var length :- ParseExp(s, p);
    var init :- ParseExp(s, length.1);
    Ok((ArrayExp(length.0, init.0), init.1))
  }

  function ParseObjectExp(s: seq<Byte>, p: nat): (r: Parsed<Exp>)
    ensures r.Ok? ==> p <= r.value.1 && r.value.0.ObjectExp?
    decreases Rest(s, p), 2, 0
  {
    var parent :- ParseExp(s, p);
    var n :- ParseInt(s, parent.1);
    var slots :- ParseSlots(s, n.1, n.0);
    Ok((ObjectExp(parent.0, slots.0), slots.1))
  }

  function ParseSetSlotExp(s: seq<Byte>, p: nat): (r: Parsed<Exp>)
    ensures r.Ok? ==> p <= r.value.1 && r.value.0.SetSlotExp?
    decreases Rest(s, p), 2, 0
  {
    var name :- ParseString(s, p);
    var exp :- ParseExp(s, name.1);
    var value :- ParseExp(s, exp.1);
    Ok((SetSlotExp(name.0, exp.0, value.0), value.1))
  }

  function ParseCallSlotExp(s: seq<Byte>, p: nat): (r: Parsed<Exp>)
    ensures r.Ok? ==> p <= r.value.1 && r.value.0.CallSlotExp?
    decreases Rest(s, p), 2, 0
  {
    var name :- ParseString(s, p);
    var exp :- ParseExp(s, name.1);
    var n :- ParseInt(s, exp.1);
    var args :- ParseExps(s, n.1, n.0);
    Ok((CallSlotExp(name.0, exp.0, args.0), args.1))
  }

  function ParseCallExp(s: seq<Byte>, p: nat): (r: Parsed<Exp>)
    ensures r.Ok? ==> p <= r.value.1 && r.value.0.CallExp?
    decreases Rest(s, p), 2, 0
  {
    var name :- ParseString(s, p);
    var n :- ParseInt(s, name.1);
    var args :- ParseExps(s, n.1, n.0);
    Ok((CallExp(name.0, args.0), args.1))
  }

  function ParseIfExp(s: seq<Byte>, p: nat): (r: Parsed<Exp>)
    ensures r.Ok? ==> p <= r.value.1 && r.value.0.IfExp?
    decreases Rest(s, p), 2, 0
  {
    var pred :- ParseExp(s, p);
    var conseq :- ParseScope(s, pred.1);
    var alt :- ParseScope(s, conseq.1);
    Ok((IfExp(pred.0, conseq.0, alt.0), alt.1))
  }

  function ParseWhileExp(s: seq<Byte>, p: nat): (r: Parsed<Exp>)
    ensures r.Ok? ==> p <= r.value.1 && r.value.0.WhileExp?
    decreases Rest(s, p), 2, 0
  {
    var pred :- ParseExp(s, p);
    var body :- ParseScope(s, pred.1);
    Ok((WhileExp(pred.0, body.0), body.1))
  }

  /** A name and then an expression: the fields of slot reads, assignments
      and variable statements. */
  function ParseNamed(s: seq<Byte>, p: nat): (r: Parsed<(string, Exp)>)
    ensures r.Ok? ==> p <= r.value.1
    decreases Rest(s, p), 2, 0
  {
    var name :- ParseString(s, p);
    var exp :- ParseExp(s, name.1);
    Ok(((name.0, exp.0), exp.1))
  }

  /** A name, a parameter count, the parameter names and a body: the fields
      of method slots and function statements. */
  function ParseFn(s: seq<Byte>, p: nat): (r: Parsed<(string, seq<string>, ScopeStmt)>)
    ensures r.Ok? ==> p <= r.value.1
    decreases Rest(s, p), 2, 0
  {
    var name :- ParseString(s, p);
    var n :- ParseInt(s, name.1);
    var args :- ParseStrings(s, n.1, n.0);
    var body :- ParseScope(s, args.1);
    Ok(((name.0, args.0, body.0), body.1))
  }

  /** read_exps: `n` expressions one after the other. */
  function ParseExps(s: seq<Byte>, pos: nat, n: int): (r: Parsed<seq<Exp>>)
    ensures r.Ok? ==> pos <= r.value.1 && |r.value.0| == (if n < 0 then 0 else n)
    decreases Rest(s, pos), 1, n
  {
    if n <= 0 then Ok(([], pos))
    else
      var first :- ParseExp(s, pos);
      var rest :- ParseExps(s, first.1, n - 1);
      Ok(([first.0] + rest.0, rest.1))
  }

  /** read_slot: VAR_STMT or FN_STMT and their fields; any other tag is fatal. */
  function ParseSlot(s: seq<Byte>, pos: nat): (r: Parsed<SlotStmt>)
    ensures r.Ok? ==> pos < r.value.1
    decreases Rest(s, pos), 0, 0
  {
    var tag :- ParseInt(s, pos);
    var p := tag.1;
    match tag.0
    case 13 => var f :- ParseNamed(s, p); Ok((SlotVar(f.0.0, f.0.1), f.1))
    case 14 => var f :- ParseFn(s, p); Ok((SlotMethod(f.0.0, f.0.1, f.0.2), f.1))
    case _ => Fatal("Unrecognized slot with tag")
  }

  /** read_slots: `n` slots one after the other. */
  function ParseSlots(s: seq<Byte>, pos: nat, n: int): (r: Parsed<seq<SlotStmt>>)
    ensures r.Ok? ==> pos <= r.value.1 && |r.value.0| == (if n < 0 then 0 else n)
    decreases Rest(s, pos), 1, n
  {
    if n <= 0 then Ok(([], pos))
    else
      var first :- ParseSlot(s, pos);
      var rest :- ParseSlots(s, first.1, n - 1);
      Ok(([first.0] + rest.0, rest.1))
  }

  /** read_scopestmt: VAR_STMT, FN_STMT, SEQ_STMT or EXP_STMT and their
      fields; any other tag is fatal. */
  function ParseScope(s: seq<Byte>, pos: nat): (r: Parsed<ScopeStmt>)
    ensures r.Ok? ==> pos < r.value.1
    decreases Rest(s, pos), 0, 0
  {
    var tag :- ParseInt(s, pos);
    var p := tag.1;
    match tag.0
    case 13 => var f :- ParseNamed(s, p); Ok((ScopeVar(f.0.0, f.0.1), f.1))
    case 14 => var f :- ParseFn(s, p); Ok((ScopeFn(f.0.0, f.0.1, f.0.2), f.1))
    case 15 => ParseSeqStmt(s, p)
    case 16 => var e :- ParseExp(s, p); Ok((ScopeExp(e.0), e.1))
    case _ => Fatal("Scope statement with unrecognized tag")
  }

  /** The two halves of a sequence statement. */
  function ParseSeqStmt(s: seq<Byte>, p: nat): (r: Parsed<ScopeStmt>)
    ensures r.Ok? ==> p <= r.value.1 && r.value.0.ScopeSeq?
    decreases Rest(s, p), 2, 0
  {
    var a :- ParseScope(s, p);
    var b :- ParseScope(s, a.1);
    Ok((ScopeSeq(a.0, b.0), b.1))
  }

  //============================================================
  // Writing
  //============================================================

  /** The tree as a writer of tree files lays it out: the partner of the readers. */
  function EncodeExp(e: Exp): seq<Byte>
  {
    match e
    case IntExp(v) => Bytes32(INT_EXP) + Bytes32(v)
    case NullExp => Bytes32(NULL_EXP)
    case PrintfExp(f, es) => Bytes32(PRINTF_EXP) + (EncodeString(f) + (Bytes32(|es|) + EncodeExps(es)))
    case ArrayExp(l, i) => Bytes32(ARRAY_EXP) + (EncodeExp(l) + EncodeExp(i))
    case ObjectExp(p, ss) => Bytes32(OBJECT_EXP) + (EncodeExp(p) + (Bytes32(|ss|) + EncodeSlots(ss)))
    case SlotExp(n, x) => Bytes32(SLOT_EXP) + (EncodeString(n) + EncodeExp(x))
    case SetSlotExp(n, x, v) => Bytes32(SET_SLOT_EXP) + (EncodeString(n) + (EncodeExp(x) + EncodeExp(v)))
    case CallSlotExp(n, x, args) =>
      Bytes32(CALL_SLOT_EXP) + (EncodeString(n) + (EncodeExp(x) + (Bytes32(|args|) + EncodeExps(args))))
    case CallExp(n, args) => Bytes32(CALL_EXP) + (EncodeString(n) + (Bytes32(|args|) + EncodeExps(args)))
    case SetExp(n, x) => Bytes32(SET_EXP) + (EncodeString(n) + EncodeExp(x))
    case IfExp(p, c, a) => Bytes32(IF_EXP) + (EncodeExp(p) + (EncodeScope(c) + EncodeScope(a)))
    case WhileExp(p, b) => Bytes32(WHILE_EXP) + (EncodeExp(p) + EncodeScope(b))
    case RefExp(n) => Bytes32(REF_EXP) + EncodeString(n)
  }

  function EncodeExps(es: seq<Exp>): seq<Byte>
  {
    if es == [] then [] else EncodeExp(es[0]) + EncodeExps(es[1..])
  }

  function EncodeSlot(st: SlotStmt): seq<Byte>
  {
    match st
    case SlotVar(n, x) => Bytes32(VAR_STMT) + (EncodeString(n) + EncodeExp(x))
    case SlotMethod(n, args, body) =>
      Bytes32(FN_STMT) + (EncodeString(n) + (Bytes32(|args|) + (Concat(EncodeString, args) + EncodeScope(body))))
  }

  function EncodeSlots(ss: seq<SlotStmt>): seq<Byte>
  {
    if ss == [] then [] else EncodeSlot(ss[0]) + EncodeSlots(ss[1..])
  }

  function EncodeScope(st: ScopeStmt): seq<Byte>
  {
    match st
    case ScopeVar(n, x) => Bytes32(VAR_STMT) + (EncodeString(n) + EncodeExp(x))
    case ScopeFn(n, args, body) =>
      Bytes32(FN_STMT) + (EncodeString(n) + (Bytes32(|args|) + (Concat(EncodeString, args) + EncodeScope(body))))
    case ScopeSeq(a, b) => Bytes32(SEQ_STMT) + (EncodeScope(a) + EncodeScope(b))
    case ScopeExp(x) => Bytes32(EXP_STMT) + EncodeExp(x)
  }

  /** Trees a tree file can hold: ints fit in 32 bits, names are byte
      strings and every count fits in an int. */
  predicate WfExp(e: Exp)
  {
    match e
    case IntExp(v) => IsInt32(v)
    case NullExp => true
    case PrintfExp(f, es) => IsByteString(f) && |es| < TWO_31 && WfExps(es)
    case ArrayExp(l, i) => WfExp(l) && WfExp(i)
    case ObjectExp(p, ss) => WfExp(p) && |ss| < TWO_31 && WfSlots(ss)
    case SlotExp(n, x) => IsByteString(n) && WfExp(x)
    case SetSlotExp(n, x, v) => IsByteString(n) && WfExp(x) && WfExp(v)
    case CallSlotExp(n, x, args) => IsByteString(n) && WfExp(x) && |args| < TWO_31 && WfExps(args)
    case CallExp(n, args) => IsByteString(n) && |args| < TWO_31 && WfExps(args)
    case SetExp(n, x) => IsByteString(n) && WfExp(x)
    case IfExp(p, c, a) => WfExp(p) && WfScope(c) && WfScope(a)
    case WhileExp(p, b) => WfExp(p) && WfScope(b)
    case RefExp(n) => IsByteString(n)
  }

  predicate WfExps(es: seq<Exp>)
  {
    es == [] || (WfExp(es[0]) && WfExps(es[1..]))
  }

  predicate WfStrings(strs: seq<string>)
  {
    |strs| < TWO_31 && forall k :: 0 <= k < |strs| ==> IsByteString(strs[k])
  }

  predicate WfSlot(st: SlotStmt)
  {
    match st
    case SlotVar(n, x) => IsByteString(n) && WfExp(x)
    case SlotMethod(n, args, body) => IsByteString(n) && WfStrings(args) && WfScope(body)
  }

  predicate WfSlots(ss: seq<SlotStmt>)
  {
    ss == [] || (WfSlot(ss[0]) && WfSlots(ss[1..]))
  }

  predicate WfScope(st: ScopeStmt)
  {
    match st
    case ScopeVar(n, x) => IsByteString(n) && WfExp(x)
    case ScopeFn(n, args, body) => IsByteString(n) && WfStrings(args) && WfScope(body)
    case ScopeSeq(a, b) => WfScope(a) && WfScope(b)
    case ScopeExp(x) => WfExp(x)
  }

  //============================================================
  // Round trips
  //============================================================

  lemma {:induction false} ReadBackStrings(strs: seq<string>, s: seq<Byte>, pos: nat)
    requires forall k :: 0 <= k < |strs| ==> IsByteString(strs[k])
    requires Occurs(Concat(EncodeString, strs), s, pos)
    ensures ParseStrings(s, pos, |strs|) == Item(strs, pos + |Concat(EncodeString, strs)|)
  {
    hide ParseExp, ParseExps, ParseSlot, ParseSlots, ParseScope, ParsePrintfExp, ParseArrayExp,
      ParseObjectExp, ParseSetSlotExp, ParseCallSlotExp, ParseCallExp, ParseIfExp,
      ParseWhileExp, ParseNamed, ParseFn, ParseSeqStmt, EncodeExp, EncodeExps, EncodeSlot,
      EncodeSlots, EncodeScope, WfExp, WfExps, WfStrings, WfSlot, WfSlots, WfScope,
      ParseString, EncodeString, Occurs, ParseInt, Bytes32, IsInt32, IsByteString;
    if strs != [] {
      var p1 := pos + |EncodeString(strs[0])|;
      ConcatCons(EncodeString, strs);
      OccursSplit(EncodeString(strs[0]), Concat(EncodeString, strs[1..]), s, pos);
      ReadBackString(strs[0], s, pos);
      ReadBackStrings(strs[1..], s, p1);
      ParseNCons(ParseString, s, pos, strs, p1, p1 + |Concat(EncodeString, strs[1..])|);
    }
  }

  /** A count followed by that many expressions. */
  lemma ReadBackCountedExps(es: seq<Exp>, s: seq<Byte>, pos: nat)
    requires |es| < TWO_31 && WfExps(es) && Occurs(Bytes32(|es|) + EncodeExps(es), s, pos)
    ensures ParseInt(s, pos) == Item(|es|, pos + 4)
    ensures ParseExps(s, pos + 4, |es|) == Item(es, pos + 4 + |EncodeExps(es)|)
    decreases es, 3
  {
    hide ParseStrings, ParseExp, ParseExps, ParseSlot, ParseSlots, ParseScope, ParsePrintfExp,
      ParseArrayExp, ParseObjectExp, ParseSetSlotExp, ParseCallSlotExp, ParseCallExp,
      ParseIfExp, ParseWhileExp, ParseNamed, ParseFn, ParseSeqStmt, EncodeExp, EncodeExps,
      EncodeSlot, EncodeSlots, EncodeScope, WfExp, WfExps, WfStrings, WfSlot, WfSlots, WfScope,
      ParseString, EncodeString, Concat, Occurs, ParseN, ParseInt, Bytes32, IsInt32,
      IsByteString;
    OccursSplit(Bytes32(|es|), EncodeExps(es), s, pos);
    ReadBackInt(|es|, s, pos);
    ReadBackExps(es, s, pos + 4);
  }

  lemma ReadBackExps(es: seq<Exp>, s: seq<Byte>, pos: nat)
    requires WfExps(es) && Occurs(EncodeExps(es), s, pos)
    ensures ParseExps(s, pos, |es|) == Item(es, pos + |EncodeExps(es)|)
    decreases es, 2
  {
    hide ParseStrings, ParseExp, ParseSlot, ParseSlots, ParseScope, ParsePrintfExp,
      ParseArrayExp, ParseObjectExp, ParseSetSlotExp, ParseCallSlotExp, ParseCallExp,
      ParseIfExp, ParseWhileExp, ParseNamed, ParseFn, ParseSeqStmt, EncodeExp, EncodeSlot,
      EncodeSlots, EncodeScope, WfExp, WfStrings, WfSlot, WfSlots, WfScope, ParseString,
      EncodeString, Concat, Occurs, ParseN, ParseInt, Bytes32, IsInt32, IsByteString;
    if es != [] {
      var p1 := pos + |EncodeExp(es[0])|;
      OccursSplit(EncodeExp(es[0]), EncodeExps(es[1..]), s, pos);
      ReadBackExp(es[0], s, pos);
      ReadBackExps(es[1..], s, p1);
      assert [es[0]] + es[1..] == es;
    }
  }

  /** A count followed by that many slots. */
  lemma ReadBackCountedSlots(ss: seq<SlotStmt>, s: seq<Byte>, pos: nat)
    requires |ss| < TWO_31 && WfSlots(ss) && Occurs(Bytes32(|ss|) + EncodeSlots(ss), s, pos)
    ensures ParseInt(s, pos) == Item(|ss|, pos + 4)
    ensures ParseSlots(s, pos + 4, |ss|) == Item(ss, pos + 4 + |EncodeSlots(ss)|)
    decreases ss, 3
  {
    hide ParseStrings, ParseExp, ParseExps, ParseSlot, ParseSlots, ParseScope, ParsePrintfExp,
      ParseArrayExp, ParseObjectExp, ParseSetSlotExp, ParseCallSlotExp, ParseCallExp,
      ParseIfExp, ParseWhileExp, ParseNamed, ParseFn, ParseSeqStmt, EncodeExp, EncodeExps,
      EncodeSlot, EncodeSlots, EncodeScope, WfExp, WfExps, WfStrings, WfSlot, WfSlots, WfScope,
      ParseString, EncodeString, Concat, Occurs, ParseN, ParseInt, Bytes32, IsInt32,
      IsByteString;
    OccursSplit(Bytes32(|ss|), EncodeSlots(ss), s, pos);
    ReadBackInt(|ss|, s, pos);
    ReadBackSlots(ss, s, pos + 4);
  }

  lemma ReadBackSlots(ss: seq<SlotStmt>, s: seq<Byte>, pos: nat)
    requires WfSlots(ss) && Occurs(EncodeSlots(ss), s, pos)
    ensures ParseSlots(s, pos, |ss|) == Item(ss, pos + |EncodeSlots(ss)|)
    decreases ss, 2
  {
    hide ParseStrings, ParseExp, ParseExps, ParseSlot, ParseScope, ParsePrintfExp,
      ParseArrayExp, ParseObjectExp, ParseSetSlotExp, ParseCallSlotExp, ParseCallExp,
      ParseIfExp, ParseWhileExp, ParseNamed, ParseFn, ParseSeqStmt, EncodeExp, EncodeExps,
      EncodeSlot, EncodeScope, WfExp, WfExps, WfStrings, WfSlot, WfScope, ParseString,
      EncodeString, Concat, Occurs, ParseN, ParseInt, Bytes32, IsInt32, IsByteString;
    if ss != [] {
      var p1 := pos + |EncodeSlot(ss[0])|;
      OccursSplit(EncodeSlot(ss[0]), EncodeSlots(ss[1..]), s, pos);
      ReadBackSlot(ss[0], s, pos);
      ReadBackSlots(ss[1..], s, p1);
      assert [ss[0]] + ss[1..] == ss;
    }
  }

  lemma ReadBackNamed(n: string, x: Exp, s: seq<Byte>, pos: nat)
    requires IsByteString(n) && WfExp(x) && Occurs(EncodeString(n) + EncodeExp(x), s, pos)
    ensures ParseNamed(s, pos) == Item((n, x), pos + |EncodeString(n) + EncodeExp(x)|)
    decreases x, 3
  {
    hide ParseStrings, ParseExp, ParseExps, ParseSlot, ParseSlots, ParseScope, ParsePrintfExp,
      ParseArrayExp, ParseObjectExp, ParseSetSlotExp, ParseCallSlotExp, ParseCallExp,
      ParseIfExp, ParseWhileExp, ParseFn, ParseSeqStmt, EncodeExp, EncodeExps, EncodeSlot,
      EncodeSlots, EncodeScope, WfExp, WfExps, WfStrings, WfSlot, WfSlots, WfScope,
      ParseString, EncodeString, Concat, Occurs, ParseN, ParseInt, Bytes32, IsInt32,
      IsByteString;
    OccursSplit(EncodeString(n), EncodeExp(x), s, pos);
    ReadBackString(n, s, pos);
    ReadBackExp(x, s, pos + |EncodeString(n)|);
  }

  lemma ReadBackFn(n: string, args: seq<string>, body: ScopeStmt, s: seq<Byte>, pos: nat)
    requires IsByteString(n) && WfStrings(args) && WfScope(body)
    requires Occurs(EncodeString(n) + (Bytes32(|args|) + (Concat(EncodeString, args) + EncodeScope(body))), s, pos)
    ensures ParseFn(s, pos) == Item((n, args, body), pos + |EncodeString(n) + (Bytes32(|args|) + (Concat(EncodeString, args) + EncodeScope(body)))|)
    decreases body, 3
  {
    hide ParseStrings, ParseExp, ParseExps, ParseSlot, ParseSlots, ParseScope, ParsePrintfExp,
      ParseArrayExp, ParseObjectExp, ParseSetSlotExp, ParseCallSlotExp, ParseCallExp,
      ParseIfExp, ParseWhileExp, ParseNamed, ParseSeqStmt, EncodeExp, EncodeExps, EncodeSlot,
      EncodeSlots, EncodeScope, WfExp, WfExps, WfSlot, WfSlots, WfScope, ParseString,
      EncodeString, Concat, Occurs, ParseN, ParseInt, Bytes32, IsInt32, IsByteString;
    var p1 := pos + |EncodeString(n)|;
    var p3 := p1 + 4 + |Concat(EncodeString, args)|;
    OccursSplit(EncodeString(n), Bytes32(|args|) + (Concat(EncodeString, args) + EncodeScope(body)), s, pos);
    OccursSplit(Bytes32(|args|), Concat(EncodeString, args) + EncodeScope(body), s, p1);
    OccursSplit(Concat(EncodeString, args), EncodeScope(body), s, p1 + 4);
    ReadBackString(n, s, pos);
    ReadBackInt(|args|, s, p1);
    ReadBackStrings(args, s, p1 + 4);
    ReadBackScope(body, s, p3);
  }

  /** Every well-formed expression reads back from its encoding, and the
      reader stops right after it. */
  lemma ReadBackExp(e: Exp, s: seq<Byte>, pos: nat)
    requires WfExp(e) && Occurs(EncodeExp(e), s, pos)
    ensures ParseExp(s, pos) == Item(e, pos + |EncodeExp(e)|)
    decreases e, 2
  {
    hide ParseStrings, ParseExp, ParseExps, ParseSlot, ParseSlots, ParseScope, ParsePrintfExp,
      ParseArrayExp, ParseObjectExp, ParseSetSlotExp, ParseCallSlotExp, ParseCallExp,
      ParseIfExp, ParseWhileExp, ParseNamed, ParseFn, ParseSeqStmt, EncodeExp, EncodeExps,
      EncodeSlot, EncodeSlots, EncodeScope, WfExp, WfExps, WfStrings, WfSlot, WfSlots, WfScope,
      ParseString, EncodeString, Concat, Occurs, ParseN, ParseInt, Bytes32, IsInt32,
      IsByteString;
    match e
    case NullExp => ReadBackNullExp(e, s, pos);
    case IntExp(_) => ReadBackIntExp(e, s, pos);
    case PrintfExp(_, _) => ReadBackPrintfExp(e, s, pos);
    case ArrayExp(_, _) => ReadBackArrayExp(e, s, pos);
    case ObjectExp(_, _) => ReadBackObjectExp(e, s, pos);
    case SlotExp(_, _) => ReadBackSlotExp(e, s, pos);
    case SetSlotExp(_, _, _) => ReadBackSetSlotExp(e, s, pos);
    case CallSlotExp(_, _, _) => ReadBackCallSlotExp(e, s, pos);
    case CallExp(_, _) => ReadBackCallExp(e, s, pos);
    case SetExp(_, _) => ReadBackSetExp(e, s, pos);
    case IfExp(_, _, _) => ReadBackIfExp(e, s, pos);
    case WhileExp(_, _) => ReadBackWhileExp(e, s, pos);
    case RefExp(_) => ReadBackRefExp(e, s, pos);
  }

  lemma ReadBackIntExp(e: Exp, s: seq<Byte>, pos: nat)
    requires e.IntExp? && WfExp(e) && Occurs(EncodeExp(e), s, pos)
    ensures ParseExp(s, pos) == Item(e, pos + |EncodeExp(e)|)
    decreases e, 1
  {
    hide ParseStrings, ParseExps, ParseSlot, ParseSlots, ParseScope, ParsePrintfExp,
      ParseArrayExp, ParseObjectExp, ParseSetSlotExp, ParseCallSlotExp, ParseCallExp,
      ParseIfExp, ParseWhileExp, ParseNamed, ParseFn, ParseSeqStmt, EncodeExps, EncodeSlot,
      EncodeSlots, EncodeScope, WfExps, WfStrings, WfSlot, WfSlots, WfScope, ParseString,
      EncodeString, Concat, Occurs, ParseN, ParseInt, Bytes32, IsInt32, IsByteString;
    OccursSplit(Bytes32(INT_EXP), Bytes32(e.value), s, pos);
    ReadBackInt(INT_EXP, s, pos);
    ReadBackInt(e.value, s, pos + 4);
  }

  lemma ReadBackPrintfExp(e: Exp, s: seq<Byte>, pos: nat)
    requires e.PrintfExp? && WfExp(e) && Occurs(EncodeExp(e), s, pos)
    ensures ParseExp(s, pos) == Item(e, pos + |EncodeExp(e)|)
    decreases e, 1
  {
    hide ParseStrings, ParseExps, ParseSlot, ParseSlots, ParseScope, ParsePrintfExp,
      ParseArrayExp, ParseObjectExp, ParseSetSlotExp, ParseCallSlotExp, ParseCallExp,
      ParseIfExp, ParseWhileExp, ParseNamed, ParseFn, ParseSeqStmt, EncodeExps, EncodeSlot,
      EncodeSlots, EncodeScope, WfExps, WfStrings, WfSlot, WfSlots, WfScope, ParseString,
      EncodeString, Concat, Occurs, ParseN, ParseInt, Bytes32, IsInt32, IsByteString;
    OccursSplit(Bytes32(PRINTF_EXP), EncodeString(e.format) + (Bytes32(|e.exps|) + EncodeExps(e.exps)), s, pos);
    ReadBackInt(PRINTF_EXP, s, pos);
    ReadBackPrintfExpFields(e, s, pos + 4);
  }

  lemma ReadBackArrayExp(e: Exp, s: seq<Byte>, pos: nat)
    requires e.ArrayExp? && WfExp(e) && Occurs(EncodeExp(e), s, pos)
    ensures ParseExp(s, pos) == Item(e, pos + |EncodeExp(e)|)
    decreases e, 1
  {
    hide ParseStrings, ParseExps, ParseSlot, ParseSlots, ParseScope, ParsePrintfExp,
      ParseArrayExp, ParseObjectExp, ParseSetSlotExp, ParseCallSlotExp, ParseCallExp,
      ParseIfExp, ParseWhileExp, ParseNamed, ParseFn, ParseSeqStmt, EncodeExps, EncodeSlot,
      EncodeSlots, EncodeScope, WfExps, WfStrings, WfSlot, WfSlots, WfScope, ParseString,
      EncodeString, Concat, Occurs, ParseN, ParseInt, Bytes32, IsInt32, IsByteString;
    OccursSplit(Bytes32(ARRAY_EXP), EncodeExp(e.length) + EncodeExp(e.init), s, pos);
    ReadBackInt(ARRAY_EXP, s, pos);
    ReadBackArrayExpFields(e, s, pos + 4);
  }

  lemma ReadBackObjectExp(e: Exp, s: seq<Byte>, pos: nat)
    requires e.ObjectExp? && WfExp(e) && Occurs(EncodeExp(e), s, pos)
    ensures ParseExp(s, pos) == Item(e, pos + |EncodeExp(e)|)
    decreases e, 1
  {
    hide ParseStrings, ParseExps, ParseSlot, ParseSlots, ParseScope, ParsePrintfExp,
      ParseArrayExp, ParseObjectExp, ParseSetSlotExp, ParseCallSlotExp, ParseCallExp,
      ParseIfExp, ParseWhileExp, ParseNamed, ParseFn, ParseSeqStmt, EncodeExps, EncodeSlot,
      EncodeSlots, EncodeScope, WfExps, WfStrings, WfSlot, WfSlots, WfScope, ParseString,
      EncodeString, Concat, Occurs, ParseN, ParseInt, Bytes32, IsInt32, IsByteString;
    OccursSplit(Bytes32(OBJECT_EXP), EncodeExp(e.parent) + (Bytes32(|e.slots|) + EncodeSlots(e.slots)), s, pos);
    ReadBackInt(OBJECT_EXP, s, pos);
    ReadBackObjectExpFields(e, s, pos + 4);
  }

  lemma ReadBackSlotExp(e: Exp, s: seq<Byte>, pos: nat)
    requires e.SlotExp? && WfExp(e) && Occurs(EncodeExp(e), s, pos)
    ensures ParseExp(s, pos) == Item(e, pos + |EncodeExp(e)|)
    decreases e, 1
  {
    hide ParseStrings, ParseExps, ParseSlot, ParseSlots, ParseScope, ParsePrintfExp,
      ParseArrayExp, ParseObjectExp, ParseSetSlotExp, ParseCallSlotExp, ParseCallExp,
      ParseIfExp, ParseWhileExp, ParseNamed, ParseFn, ParseSeqStmt, EncodeExps, EncodeSlot,
      EncodeSlots, EncodeScope, WfExps, WfStrings, WfSlot, WfSlots, WfScope, ParseString,
      EncodeString, Concat, Occurs, ParseN, ParseInt, Bytes32, IsInt32, IsByteString;
    OccursSplit(Bytes32(SLOT_EXP), EncodeString(e.name) + EncodeExp(e.exp), s, pos);
    ReadBackInt(SLOT_EXP, s, pos);
    ReadBackNamed(e.name, e.exp, s, pos + 4);
  }

  lemma ReadBackSetSlotExp(e: Exp, s: seq<Byte>, pos: nat)
    requires e.SetSlotExp? && WfExp(e) && Occurs(EncodeExp(e), s, pos)
    ensures ParseExp(s, pos) == Item(e, pos + |EncodeExp(e)|)
    decreases e, 1
  {
    hide ParseStrings, ParseExps, ParseSlot, ParseSlots, ParseScope, ParsePrintfExp,
      ParseArrayExp, ParseObjectExp, ParseSetSlotExp, ParseCallSlotExp, ParseCallExp,
      ParseIfExp, ParseWhileExp, ParseNamed, ParseFn, ParseSeqStmt, EncodeExps, EncodeSlot,
      EncodeSlots, EncodeScope, WfExps, WfStrings, WfSlot, WfSlots, WfScope, ParseString,
      EncodeString, Concat, Occurs, ParseN, ParseInt, Bytes32, IsInt32, IsByteString;
    OccursSplit(Bytes32(SET_SLOT_EXP), EncodeString(e.name) + (EncodeExp(e.exp) + EncodeExp(e.newValue)), s, pos);
    ReadBackInt(SET_SLOT_EXP, s, pos);
    ReadBackSetSlotExpFields(e, s, pos + 4);
  }

  lemma ReadBackCallSlotExp(e: Exp, s: seq<Byte>, pos: nat)
    requires e.CallSlotExp? && WfExp(e) && Occurs(EncodeExp(e), s, pos)
    ensures ParseExp(s, pos) == Item(e, pos + |EncodeExp(e)|)
    decreases e, 1
  {
    hide ParseStrings, ParseExps, ParseSlot, ParseSlots, ParseScope, ParsePrintfExp,
      ParseArrayExp, ParseObjectExp, ParseSetSlotExp, ParseCallSlotExp, ParseCallExp,
      ParseIfExp, ParseWhileExp, ParseNamed, ParseFn, ParseSeqStmt, EncodeExps, EncodeSlot,
      EncodeSlots, EncodeScope, WfExps, WfStrings, WfSlot, WfSlots, WfScope, ParseString,
      EncodeString, Concat, Occurs, ParseN, ParseInt, Bytes32, IsInt32, IsByteString;
    OccursSplit(Bytes32(CALL_SLOT_EXP), EncodeString(e.name) + (EncodeExp(e.exp) + (Bytes32(|e.args|) + EncodeExps(e.args))), s, pos);
    ReadBackInt(CALL_SLOT_EXP, s, pos);
    ReadBackCallSlotExpFields(e, s, pos + 4);
  }

  lemma ReadBackCallExp(e: Exp, s: seq<Byte>, pos: nat)
    requires e.CallExp? && WfExp(e) && Occurs(EncodeExp(e), s, pos)
    ensures ParseExp(s, pos) == Item(e, pos + |EncodeExp(e)|)
    decreases e, 1
  {
    hide ParseStrings, ParseExps, ParseSlot, ParseSlots, ParseScope, ParsePrintfExp,
      ParseArrayExp, ParseObjectExp, ParseSetSlotExp, ParseCallSlotExp, ParseCallExp,
      ParseIfExp, ParseWhileExp, ParseNamed, ParseFn, ParseSeqStmt, EncodeExps, EncodeSlot,
      EncodeSlots, EncodeScope, WfExps, WfStrings, WfSlot, WfSlots, WfScope, ParseString,
      EncodeString, Concat, Occurs, ParseN, ParseInt, Bytes32, IsInt32, IsByteString;
    OccursSplit(Bytes32(CALL_EXP), EncodeString(e.name) + (Bytes32(|e.args|) + EncodeExps(e.args)), s, pos);
    ReadBackInt(CALL_EXP, s, pos);
    ReadBackCallExpFields(e, s, pos + 4);
  }

  lemma ReadBackSetExp(e: Exp, s: seq<Byte>, pos: nat)
    requires e.SetExp? && WfExp(e) && Occurs(EncodeExp(e), s, pos)
    ensures ParseExp(s, pos) == Item(e, pos + |EncodeExp(e)|)
    decreases e, 1
  {
    hide ParseStrings, ParseExps, ParseSlot, ParseSlots, ParseScope, ParsePrintfExp,
      ParseArrayExp, ParseObjectExp, ParseSetSlotExp, ParseCallSlotExp, ParseCallExp,
      ParseIfExp, ParseWhileExp, ParseNamed, ParseFn, ParseSeqStmt, EncodeExps, EncodeSlot,
      EncodeSlots, EncodeScope, WfExps, WfStrings, WfSlot, WfSlots, WfScope, ParseString,
      EncodeString, Concat, Occurs, ParseN, ParseInt, Bytes32, IsInt32, IsByteString;
    OccursSplit(Bytes32(SET_EXP), EncodeString(e.name) + EncodeExp(e.exp), s, pos);
    ReadBackInt(SET_EXP, s, pos);
    ReadBackNamed(e.name, e.exp, s, pos + 4);
  }

  lemma ReadBackIfExp(e: Exp, s: seq<Byte>, pos: nat)
    requires e.IfExp? && WfExp(e) && Occurs(EncodeExp(e), s, pos)
    ensures ParseExp(s, pos) == Item(e, pos + |EncodeExp(e)|)
    decreases e, 1
  {
    hide ParseStrings, ParseExps, ParseSlot, ParseSlots, ParseScope, ParsePrintfExp,
      ParseArrayExp, ParseObjectExp, ParseSetSlotExp, ParseCallSlotExp, ParseCallExp,
      ParseIfExp, ParseWhileExp, ParseNamed, ParseFn, ParseSeqStmt, EncodeExps, EncodeSlot,
      EncodeSlots, EncodeScope, WfExps, WfStrings, WfSlot, WfSlots, WfScope, ParseString,
      EncodeString, Concat, Occurs, ParseN, ParseInt, Bytes32, IsInt32, IsByteString;
    OccursSplit(Bytes32(IF_EXP), EncodeExp(e.pred) + (EncodeScope(e.conseq) + EncodeScope(e.alt)), s, pos);
    ReadBackInt(IF_EXP, s, pos);
    ReadBackIfExpFields(e, s, pos + 4);
  }

  lemma ReadBackWhileExp(e: Exp, s: seq<Byte>, pos: nat)
    requires e.WhileExp? && WfExp(e) && Occurs(EncodeExp(e), s, pos)
    ensures ParseExp(s, pos) == Item(e, pos + |EncodeExp(e)|)
    decreases e, 1
  {
    hide ParseStrings, ParseExps, ParseSlot, ParseSlots, ParseScope, ParsePrintfExp,
      ParseArrayExp, ParseObjectExp, ParseSetSlotExp, ParseCallSlotExp, ParseCallExp,
      ParseIfExp, ParseWhileExp, ParseNamed, ParseFn, ParseSeqStmt, EncodeExps, EncodeSlot,
      EncodeSlots, EncodeScope, WfExps, WfStrings, WfSlot, WfSlots, WfScope, ParseString,
      EncodeString, Concat, Occurs, ParseN, ParseInt, Bytes32, IsInt32, IsByteString;
    OccursSplit(Bytes32(WHILE_EXP), EncodeExp(e.pred) + EncodeScope(e.body), s, pos);
    ReadBackInt(WHILE_EXP, s, pos);
    ReadBackWhileExpFields(e, s, pos + 4);
  }

  lemma ReadBackRefExp(e: Exp, s: seq<Byte>, pos: nat)
    requires e.RefExp? && WfExp(e) && Occurs(EncodeExp(e), s, pos)
    ensures ParseExp(s, pos) == Item(e, pos + |EncodeExp(e)|)
    decreases e, 1
  {
    hide ParseStrings, ParseExps, ParseSlot, ParseSlots, ParseScope, ParsePrintfExp,
      ParseArrayExp, ParseObjectExp, ParseSetSlotExp, ParseCallSlotExp, ParseCallExp,
      ParseIfExp, ParseWhileExp, ParseNamed, ParseFn, ParseSeqStmt, EncodeExps, EncodeSlot,
      EncodeSlots, EncodeScope, WfExps, WfStrings, WfSlot, WfSlots, WfScope, ParseString,
      EncodeString, Concat, Occurs, ParseN, ParseInt, Bytes32, IsInt32, IsByteString;
    OccursSplit(Bytes32(REF_EXP), EncodeString(e.name), s, pos);
    ReadBackInt(REF_EXP, s, pos);
    ReadBackString(e.name, s, pos + 4);
  }

  lemma ReadBackNullExp(e: Exp, s: seq<Byte>, pos: nat)
    requires e.NullExp? && Occurs(EncodeExp(e), s, pos)
    ensures ParseExp(s, pos) == Item(e, pos + |EncodeExp(e)|)
  {
    hide ParseStrings, ParseExps, ParseSlot, ParseSlots, ParseScope, ParsePrintfExp,
      ParseArrayExp, ParseObjectExp, ParseSetSlotExp, ParseCallSlotExp, ParseCallExp,
      ParseIfExp, ParseWhileExp, ParseNamed, ParseFn, ParseSeqStmt, EncodeExps, EncodeSlot,
      EncodeSlots, EncodeScope, WfExp, WfExps, WfStrings, WfSlot, WfSlots, WfScope,
      ParseString, EncodeString, Concat, Occurs, ParseN, ParseInt, Bytes32, IsInt32,
      IsByteString;
    ReadBackInt(NULL_EXP, s, pos);
  }

  lemma ReadBackPrintfExpFields(e: Exp, s: seq<Byte>, p: nat)
    requires e.PrintfExp? && WfExp(e) && Occurs(EncodeString(e.format) + (Bytes32(|e.exps|) + EncodeExps(e.exps)), s, p)
    ensures ParsePrintfExp(s, p) == Item(e, p + |EncodeString(e.format) + (Bytes32(|e.exps|) + EncodeExps(e.exps))|)
    decreases e, 0
  {
    hide ParseStrings, ParseExp, ParseExps, ParseSlot, ParseSlots, ParseScope, ParseArrayExp,
      ParseObjectExp, ParseSetSlotExp, ParseCallSlotExp, ParseCallExp, ParseIfExp,
      ParseWhileExp, ParseNamed, ParseFn, ParseSeqStmt, EncodeExp, EncodeExps, EncodeSlot,
      EncodeSlots, EncodeScope, WfExps, WfStrings, WfSlot, WfSlots, WfScope, ParseString,
      EncodeString, Concat, Occurs, ParseN, ParseInt, Bytes32, IsInt32, IsByteString;
    OccursSplit(EncodeString(e.format), Bytes32(|e.exps|) + EncodeExps(e.exps), s, p);
    ReadBackString(e.format, s, p);
    ReadBackCountedExps(e.exps, s, p + |EncodeString(e.format)|);
  }

  lemma ReadBackArrayExpFields(e: Exp, s: seq<Byte>, p: nat)
    requires e.ArrayExp? && WfExp(e) && Occurs(EncodeExp(e.length) + EncodeExp(e.init), s, p)
    ensures ParseArrayExp(s, p) == Item(e, p + |EncodeExp(e.length) + EncodeExp(e.init)|)
    decreases e, 0
  {
    hide ParseStrings, ParseExp, ParseExps, ParseSlot, ParseSlots, ParseScope, ParsePrintfExp,
      ParseObjectExp, ParseSetSlotExp, ParseCallSlotExp, ParseCallExp, ParseIfExp,
      ParseWhileExp, ParseNamed, ParseFn, ParseSeqStmt, EncodeExp, EncodeExps, EncodeSlot,
      EncodeSlots, EncodeScope, WfExps, WfStrings, WfSlot, WfSlots, WfScope, ParseString,
      EncodeString, Concat, Occurs, ParseN, ParseInt, Bytes32, IsInt32, IsByteString;
    OccursSplit(EncodeExp(e.length), EncodeExp(e.init), s, p);
    ReadBackExp(e.length, s, p);
    ReadBackExp(e.init, s, p + |EncodeExp(e.length)|);
  }

  lemma ReadBackObjectExpFields(e: Exp, s: seq<Byte>, p: nat)
    requires e.ObjectExp? && WfExp(e) && Occurs(EncodeExp(e.parent) + (Bytes32(|e.slots|) + EncodeSlots(e.slots)), s, p)
    ensures ParseObjectExp(s, p) == Item(e, p + |EncodeExp(e.parent) + (Bytes32(|e.slots|) + EncodeSlots(e.slots))|)
    decreases e, 0
  {
    hide ParseStrings, ParseExp, ParseExps, ParseSlot, ParseSlots, ParseScope, ParsePrintfExp,
      ParseArrayExp, ParseSetSlotExp, ParseCallSlotExp, ParseCallExp, ParseIfExp,
      ParseWhileExp, ParseNamed, ParseFn, ParseSeqStmt, EncodeExp, EncodeExps, EncodeSlot,
      EncodeSlots, EncodeScope, WfExps, WfStrings, WfSlot, WfSlots, WfScope, ParseString,
      EncodeString, Concat, Occurs, ParseN, ParseInt, Bytes32, IsInt32, IsByteString;
    OccursSplit(EncodeExp(e.parent), Bytes32(|e.slots|) + EncodeSlots(e.slots), s, p);
    ReadBackExp(e.parent, s, p);
    ReadBackCountedSlots(e.slots, s, p + |EncodeExp(e.parent)|);
  }

  lemma ReadBackSetSlotExpFields(e: Exp, s: seq<Byte>, p: nat)
    requires e.SetSlotExp? && WfExp(e) && Occurs(EncodeString(e.name) + (EncodeExp(e.exp) + EncodeExp(e.newValue)), s, p)
    ensures ParseSetSlotExp(s, p) == Item(e, p + |EncodeString(e.name) + (EncodeExp(e.exp) + EncodeExp(e.newValue))|)
    decreases e, 0
  {
    hide ParseStrings, ParseExp, ParseExps, ParseSlot, ParseSlots, ParseScope, ParsePrintfExp,
      ParseArrayExp, ParseObjectExp, ParseCallSlotExp, ParseCallExp, ParseIfExp, ParseWhileExp,
      ParseNamed, ParseFn, ParseSeqStmt, EncodeExp, EncodeExps, EncodeSlot, EncodeSlots,
      EncodeScope, WfExps, WfStrings, WfSlot, WfSlots, WfScope, ParseString, EncodeString,
      Concat, Occurs, ParseN, ParseInt, Bytes32, IsInt32, IsByteString;
    var q := p + |EncodeString(e.name)|;
    OccursSplit(EncodeString(e.name), EncodeExp(e.exp) + EncodeExp(e.newValue), s, p);
    OccursSplit(EncodeExp(e.exp), EncodeExp(e.newValue), s, q);
    ReadBackString(e.name, s, p);
    ReadBackExp(e.exp, s, q);
    ReadBackExp(e.newValue, s, q + |EncodeExp(e.exp)|);
  }

  lemma ReadBackCallSlotExpFields(e: Exp, s: seq<Byte>, p: nat)
    requires e.CallSlotExp? && WfExp(e) && Occurs(EncodeString(e.name) + (EncodeExp(e.exp) + (Bytes32(|e.args|) + EncodeExps(e.args))), s, p)
    ensures ParseCallSlotExp(s, p) == Item(e, p + |EncodeString(e.name) + (EncodeExp(e.exp) + (Bytes32(|e.args|) + EncodeExps(e.args)))|)
    decreases e, 0
  {
    hide ParseStrings, ParseExp, ParseExps, ParseSlot, ParseSlots, ParseScope, ParsePrintfExp,
      ParseArrayExp, ParseObjectExp, ParseSetSlotExp, ParseCallExp, ParseIfExp, ParseWhileExp,
      ParseNamed, ParseFn, ParseSeqStmt, EncodeExp, EncodeExps, EncodeSlot, EncodeSlots,
      EncodeScope, WfExps, WfStrings, WfSlot, WfSlots, WfScope, ParseString, EncodeString,
      Concat, Occurs, ParseN, ParseInt, Bytes32, IsInt32, IsByteString;
    var q := p + |EncodeString(e.name)|;
    OccursSplit(EncodeString(e.name), EncodeExp(e.exp) + (Bytes32(|e.args|) + EncodeExps(e.args)), s, p);
    OccursSplit(EncodeExp(e.exp), Bytes32(|e.args|) + EncodeExps(e.args), s, q);
    ReadBackString(e.name, s, p);
    ReadBackExp(e.exp, s, q);
    ReadBackCountedExps(e.args, s, q + |EncodeExp(e.exp)|);
  }

  lemma ReadBackCallExpFields(e: Exp, s: seq<Byte>, p: nat)
    requires e.CallExp? && WfExp(e) && Occurs(EncodeString(e.name) + (Bytes32(|e.args|) + EncodeExps(e.args)), s, p)
    ensures ParseCallExp(s, p) == Item(e, p + |EncodeString(e.name) + (Bytes32(|e.args|) + EncodeExps(e.args))|)
    decreases e, 0
  {
    hide ParseStrings, ParseExp, ParseExps, ParseSlot, ParseSlots, ParseScope, ParsePrintfExp,
      ParseArrayExp, ParseObjectExp, ParseSetSlotExp, ParseCallSlotExp, ParseIfExp,
      ParseWhileExp, ParseNamed, ParseFn, ParseSeqStmt, EncodeExp, EncodeExps, EncodeSlot,
      EncodeSlots, EncodeScope, WfExps, WfStrings, WfSlot, WfSlots, WfScope, ParseString,
      EncodeString, Concat, Occurs, ParseN, ParseInt, Bytes32, IsInt32, IsByteString;
    OccursSplit(EncodeString(e.name), Bytes32(|e.args|) + EncodeExps(e.args), s, p);
    ReadBackString(e.name, s, p);
    ReadBackCountedExps(e.args, s, p + |EncodeString(e.name)|);
  }

  lemma ReadBackIfExpFields(e: Exp, s: seq<Byte>, p: nat)
    requires e.IfExp? && WfExp(e) && Occurs(EncodeExp(e.pred) + (EncodeScope(e.conseq) + EncodeScope(e.alt)), s, p)
    ensures ParseIfExp(s, p) == Item(e, p + |EncodeExp(e.pred) + (EncodeScope(e.conseq) + EncodeScope(e.alt))|)
    decreases e, 0
  {
    hide ParseStrings, ParseExp, ParseExps, ParseSlot, ParseSlots, ParseScope, ParsePrintfExp,
      ParseArrayExp, ParseObjectExp, ParseSetSlotExp, ParseCallSlotExp, ParseCallExp,
      ParseWhileExp, ParseNamed, ParseFn, ParseSeqStmt, EncodeExp, EncodeExps, EncodeSlot,
      EncodeSlots, EncodeScope, WfExps, WfStrings, WfSlot, WfSlots, WfScope, ParseString,
      EncodeString, Concat, Occurs, ParseN, ParseInt, Bytes32, IsInt32, IsByteString;
    var q := p + |EncodeExp(e.pred)|;
    OccursSplit(EncodeExp(e.pred), EncodeScope(e.conseq) + EncodeScope(e.alt), s, p);
    OccursSplit(EncodeScope(e.conseq), EncodeScope(e.alt), s, q);
    ReadBackExp(e.pred, s, p);
    ReadBackScope(e.conseq, s, q);
    ReadBackScope(e.alt, s, q + |EncodeScope(e.conseq)|);
  }

  lemma ReadBackWhileExpFields(e: Exp, s: seq<Byte>, p: nat)
    requires e.WhileExp? && WfExp(e) && Occurs(EncodeExp(e.pred) + EncodeScope(e.body), s, p)
    ensures ParseWhileExp(s, p) == Item(e, p + |EncodeExp(e.pred) + EncodeScope(e.body)|)
    decreases e, 0
  {
    hide ParseStrings, ParseExp, ParseExps, ParseSlot, ParseSlots, ParseScope, ParsePrintfExp,
      ParseArrayExp, ParseObjectExp, ParseSetSlotExp, ParseCallSlotExp, ParseCallExp,
      ParseIfExp, ParseNamed, ParseFn, ParseSeqStmt, EncodeExp, EncodeExps, EncodeSlot,
      EncodeSlots, EncodeScope, WfExps, WfStrings, WfSlot, WfSlots, WfScope, ParseString,
      EncodeString, Concat, Occurs, ParseN, ParseInt, Bytes32, IsInt32, IsByteString;
    OccursSplit(EncodeExp(e.pred), EncodeScope(e.body), s, p);
    ReadBackExp(e.pred, s, p);
    ReadBackScope(e.body, s, p + |EncodeExp(e.pred)|);
  }

  /** Every well-formed slot reads back from its encoding. */
  lemma ReadBackSlot(st: SlotStmt, s: seq<Byte>, pos: nat)
    requires WfSlot(st) && Occurs(EncodeSlot(st), s, pos)
    ensures ParseSlot(s, pos) == Item(st, pos + |EncodeSlot(st)|)
    decreases st, 2
  {
    hide ParseStrings, ParseExp, ParseExps, ParseSlots, ParseScope, ParsePrintfExp,
      ParseArrayExp, ParseObjectExp, ParseSetSlotExp, ParseCallSlotExp, ParseCallExp,
      ParseIfExp, ParseWhileExp, ParseNamed, ParseFn, ParseSeqStmt, EncodeExp, EncodeExps,
      EncodeSlots, EncodeScope, WfExp, WfExps, WfStrings, WfSlots, WfScope, ParseString,
      EncodeString, Concat, Occurs, ParseN, ParseInt, Bytes32, IsInt32, IsByteString;
    match st
    case SlotVar(n, x) =>
      OccursSplit(Bytes32(VAR_STMT), EncodeString(n) + EncodeExp(x), s, pos);
      ReadBackInt(VAR_STMT, s, pos);
      ReadBackNamed(n, x, s, pos + 4);
    case SlotMethod(n, args, body) =>
      OccursSplit(Bytes32(FN_STMT), EncodeString(n) + (Bytes32(|args|) + (Concat(EncodeString, args) + EncodeScope(body))), s, pos);
      ReadBackInt(FN_STMT, s, pos);
      ReadBackFn(n, args, body, s, pos + 4);
  }

  /** Every well-formed scope statement reads back from its encoding. */
  lemma ReadBackScope(st: ScopeStmt, s: seq<Byte>, pos: nat)
    requires WfScope(st) && Occurs(EncodeScope(st), s, pos)
    ensures ParseScope(s, pos) == Item(st, pos + |EncodeScope(st)|)
    decreases st, 2
  {
    hide ParseStrings, ParseExp, ParseExps, ParseSlot, ParseSlots, ParsePrintfExp,
      ParseArrayExp, ParseObjectExp, ParseSetSlotExp, ParseCallSlotExp, ParseCallExp,
      ParseIfExp, ParseWhileExp, ParseNamed, ParseFn, ParseSeqStmt, EncodeExp, EncodeExps,
      EncodeSlot, EncodeSlots, WfExp, WfExps, WfStrings, WfSlot, WfSlots, ParseString,
      EncodeString, Concat, Occurs, ParseN, ParseInt, Bytes32, IsInt32, IsByteString;
    match st
    case ScopeVar(n, x) =>
      OccursSplit(Bytes32(VAR_STMT), EncodeString(n) + EncodeExp(x), s, pos);
      ReadBackInt(VAR_STMT, s, pos);
      ReadBackNamed(n, x, s, pos + 4);
    case ScopeFn(n, args, body) =>
      OccursSplit(Bytes32(FN_STMT), EncodeString(n) + (Bytes32(|args|) + (Concat(EncodeString, args) + EncodeScope(body))), s, pos);
      ReadBackInt(FN_STMT, s, pos);
      ReadBackFn(n, args, body, s, pos + 4);
    case ScopeSeq(a, b) =>
      OccursSplit(Bytes32(SEQ_STMT), EncodeScope(a) + EncodeScope(b), s, pos);
      ReadBackInt(SEQ_STMT, s, pos);
      ReadBackSeqFields(st, s, pos + 4);
    case ScopeExp(x) =>
      OccursSplit(Bytes32(EXP_STMT), EncodeExp(x), s, pos);
      ReadBackInt(EXP_STMT, s, pos);
      ReadBackExp(x, s, pos + 4);
  }

  lemma ReadBackSeqFields(st: ScopeStmt, s: seq<Byte>, p: nat)
    requires st.ScopeSeq? && WfScope(st) && Occurs(EncodeScope(st.a) + EncodeScope(st.b), s, p)
    ensures ParseSeqStmt(s, p) == Item(st, p + |EncodeScope(st.a) + EncodeScope(st.b)|)
    decreases st, 0
  {
    hide ParseStrings, ParseExp, ParseExps, ParseSlot, ParseSlots, ParseScope, ParsePrintfExp,
      ParseArrayExp, ParseObjectExp, ParseSetSlotExp, ParseCallSlotExp, ParseCallExp,
      ParseIfExp, ParseWhileExp, ParseNamed, ParseFn, EncodeExp, EncodeExps, EncodeSlot,
      EncodeSlots, EncodeScope, WfExp, WfExps, WfStrings, WfSlot, WfSlots, ParseString,
      EncodeString, Concat, Occurs, ParseN, ParseInt, Bytes32, IsInt32, IsByteString;
    OccursSplit(EncodeScope(st.a), EncodeScope(st.b), s, p);
    ReadBackScope(st.a, s, p);
    ReadBackScope(st.b, s, p + |EncodeScope(st.a)|);
  }

  //============================================================
  // The cursor-driven readers
  //============================================================

  /** One more expression read inside a list keeps the prefix invariant. */
  lemma ExpsStep(s: seq<Byte>, acc: seq<Exp>, pos: nat, n: int)
    requires n > 0
    ensures ParseExp(s, pos).Fatal? ==> Prepend(acc, ParseExps(s, pos, n)).Fatal?
    ensures ParseExp(s, pos).Ok? ==>
              Prepend(acc, ParseExps(s, pos, n))
              == Prepend(acc + [ParseExp(s, pos).value.0], ParseExps(s, ParseExp(s, pos).value.1, n - 1))
  {
    hide ParseStrings, ParseExp, ParseSlot, ParseSlots, ParseScope, ParsePrintfExp,
      ParseArrayExp, ParseObjectExp, ParseSetSlotExp, ParseCallSlotExp, ParseCallExp,
      ParseIfExp, ParseWhileExp, ParseNamed, ParseFn, ParseSeqStmt, EncodeExp, EncodeExps,
      EncodeSlot, EncodeSlots, EncodeScope, WfExp, WfExps, WfStrings, WfSlot, WfSlots, WfScope,
      ParseString, EncodeString, Concat, Occurs, ParseN, ParseInt, Bytes32, IsInt32,
      IsByteString;
    if ParseExp(s, pos).Ok? {
      var x := ParseExp(s, pos).value.0;
      match ParseExps(s, ParseExp(s, pos).value.1, n - 1)
      case Ok((rest, p)) => assert acc + ([x] + rest) == (acc + [x]) + rest;
      case Fatal(_) =>
    }
  }

  lemma ExpsDone(s: seq<Byte>, acc: seq<Exp>, pos: nat, n: int)
    requires n <= 0
    ensures Prepend(acc, ParseExps(s, pos, n)) == Item(acc, pos)
  {
    assert acc + [] == acc;
  }

  /** One more slot read inside a list keeps the prefix invariant. */
  lemma SlotsStep(s: seq<Byte>, acc: seq<SlotStmt>, pos: nat, n: int)
    requires n > 0
    ensures ParseSlot(s, pos).Fatal? ==> Prepend(acc, ParseSlots(s, pos, n)).Fatal?
    ensures ParseSlot(s, pos).Ok? ==>
              Prepend(acc, ParseSlots(s, pos, n))
              == Prepend(acc + [ParseSlot(s, pos).value.0], ParseSlots(s, ParseSlot(s, pos).value.1, n - 1))
  {
    hide ParseStrings, ParseExp, ParseExps, ParseSlot, ParseScope, ParsePrintfExp,
      ParseArrayExp, ParseObjectExp, ParseSetSlotExp, ParseCallSlotExp, ParseCallExp,
      ParseIfExp, ParseWhileExp, ParseNamed, ParseFn, ParseSeqStmt, EncodeExp, EncodeExps,
      EncodeSlot, EncodeSlots, EncodeScope, WfExp, WfExps, WfStrings, WfSlot, WfSlots, WfScope,
      ParseString, EncodeString, Concat, Occurs, ParseN, ParseInt, Bytes32, IsInt32,
      IsByteString;
    if ParseSlot(s, pos).Ok? {
      var x := ParseSlot(s, pos).value.0;
      match ParseSlots(s, ParseSlot(s, pos).value.1, n - 1)
      case Ok((rest, p)) => assert acc + ([x] + rest) == (acc + [x]) + rest;
      case Fatal(_) =>
    }
  }

  lemma SlotsDone(s: seq<Byte>, acc: seq<SlotStmt>, pos: nat, n: int)
    requires n <= 0
    ensures Prepend(acc, ParseSlots(s, pos, n)) == Item(acc, pos)
  {
    assert acc + [] == acc;
  }

  /** read_strings */
  method ReadStrings(rd: Reader, n: int) returns (r: Result<seq<string>>)
    modifies rd
    ensures Tracks(r, ParseStrings(rd.input, old(rd.pos), n), rd.pos)
  {
    hide ParseExp, ParseExps, ParseSlot, ParseSlots, ParseScope, ParsePrintfExp, ParseArrayExp,
      ParseObjectExp, ParseSetSlotExp, ParseCallSlotExp, ParseCallExp, ParseIfExp,
      ParseWhileExp, ParseNamed, ParseFn, ParseSeqStmt, EncodeExp, EncodeExps, EncodeSlot,
      EncodeSlots, EncodeScope, WfExp, WfExps, WfStrings, WfSlot, WfSlots, WfScope,
      ParseString, EncodeString, Concat, Occurs, ParseInt, Bytes32, IsInt32, IsByteString;
    ghost var start := rd.pos;
    PrependNil(ParseN(ParseString, rd.input, rd.pos, n));
    var strs: seq<string> := [];
    var i := 0;
    while i < n
      invariant 0 <= i && (i <= n || i == 0)
      invariant ParseN(ParseString, rd.input, start, n) == Prepend(strs, ParseN(ParseString, rd.input, rd.pos, n - i))
    {
      PrependStep(ParseString, rd.input, strs, rd.pos, n - i);
      var x := rd.ReadString();
      if x.Fatal? {
        return Fatal(x.msg);
      }
      strs := strs + [x.value];
      i := i + 1;
    }
    PrependDone(ParseString, rd.input, strs, rd.pos, n - i);
    r := Ok(strs);
  }

  /** read_exp */
  method ReadExp(rd: Reader) returns (r: Result<Exp>)
    modifies rd
    ensures Tracks(r, ParseExp(rd.input, old(rd.pos)), rd.pos)
    decreases Rest(rd.input, rd.pos), 0, 0
  {
    hide ParseStrings, ParseExps, ParseSlot, ParseSlots, ParseScope, ParsePrintfExp,
      ParseArrayExp, ParseObjectExp, ParseSetSlotExp, ParseCallSlotExp, ParseCallExp,
      ParseIfExp, ParseWhileExp, ParseNamed, ParseFn, ParseSeqStmt, EncodeExp, EncodeExps,
      EncodeSlot, EncodeSlots, EncodeScope, WfExp, WfExps, WfStrings, WfSlot, WfSlots, WfScope,
      ParseString, EncodeString, Concat, Occurs, ParseN, ParseInt, Bytes32, IsInt32,
      IsByteString;
    var tag :- rd.ReadInt();
    if tag == INT_EXP {
      var v :- rd.ReadInt();
      r := Ok(IntExp(v));
    } else if tag == NULL_EXP {
      r := Ok(NullExp);
    } else if tag == PRINTF_EXP {
      r := ReadPrintfExp(rd);
    } else if tag == ARRAY_EXP {
      r := ReadArrayExp(rd);
    } else if tag == OBJECT_EXP {
      r := ReadObjectExp(rd);
    } else if tag == SLOT_EXP {
      var f :- ReadNamed(rd);
      r := Ok(SlotExp(f.0, f.1));
    } else if tag == SET_SLOT_EXP {
      r := ReadSetSlotExp(rd);
    } else if tag == CALL_SLOT_EXP {
      r := ReadCallSlotExp(rd);
    } else if tag == CALL_EXP {
      r := ReadCallExp(rd);
    } else if tag == SET_EXP {
      var f :- ReadNamed(rd);
      r := Ok(SetExp(f.0, f.1));
    } else if tag == IF_EXP {
      r := ReadIfExp(rd);
    } else if tag == WHILE_EXP {
      r := ReadWhileExp(rd);
    } else if tag == REF_EXP {
      var name :- rd.ReadString();
      r := Ok(RefExp(name));
    } else {
      r := Fatal("Expression with unrecognized tag");
    }
  }

  method ReadPrintfExp(rd: Reader) returns (r: Result<Exp>)
    modifies rd
    ensures Tracks(r, ParsePrintfExp(rd.input, old(rd.pos)), rd.pos)
    decreases Rest(rd.input, rd.pos), 2, 0
  {
    hide ParseStrings, ParseExp, ParseExps, ParseSlot, ParseSlots, ParseScope, ParseArrayExp,
      ParseObjectExp, ParseSetSlotExp, ParseCallSlotExp, ParseCallExp, ParseIfExp,
      ParseWhileExp, ParseNamed, ParseFn, ParseSeqStmt, EncodeExp, EncodeExps, EncodeSlot,
      EncodeSlots, EncodeScope, WfExp, WfExps, WfStrings, WfSlot, WfSlots, WfScope,
      ParseString, EncodeString, Concat, Occurs, ParseN, ParseInt, Bytes32, IsInt32,
      IsByteString;
    var format :- rd.ReadString();
    var n :- rd.ReadInt();
    var exps :- ReadExps(rd, n);
    r := Ok(PrintfExp(format, exps));
  }

  method ReadArrayExp(rd: Reader) returns (r: Result<Exp>)
    modifies rd
    ensures Tracks(r, ParseArrayExp(rd.input, old(rd.pos)), rd.pos)
    decreases Rest(rd.input, rd.pos), 2, 0
  {
    hide ParseStrings, ParseExp, ParseExps, ParseSlot, ParseSlots, ParseScope, ParsePrintfExp,
      ParseObjectExp, ParseSetSlotExp, ParseCallSlotExp, ParseCallExp, ParseIfExp,
      ParseWhileExp, ParseNamed, ParseFn, ParseSeqStmt, EncodeExp, EncodeExps, EncodeSlot,
      EncodeSlots, EncodeScope, WfExp, WfExps, WfStrings, WfSlot, WfSlots, WfScope,
      ParseString, EncodeString, Concat, Occurs, ParseN, ParseInt, Bytes32, IsInt32,
      IsByteString;
    var length :- ReadExp(rd);
    var init :- ReadExp(rd);
    r := Ok(ArrayExp(length, init));
  }

  method ReadObjectExp(rd: Reader) returns (r: Result<Exp>)
    modifies rd
    ensures Tracks(r, ParseObjectExp(rd.input, old(rd.pos)), rd.pos)
    decreases Rest(rd.input, rd.pos), 2, 0
  {
    hide ParseStrings, ParseExp, ParseExps, ParseSlot, ParseSlots, ParseScope, ParsePrintfExp,
      ParseArrayExp, ParseSetSlotExp, ParseCallSlotExp, ParseCallExp, ParseIfExp,
      ParseWhileExp, ParseNamed, ParseFn, ParseSeqStmt, EncodeExp, EncodeExps, EncodeSlot,
      EncodeSlots, EncodeScope, WfExp, WfExps, WfStrings, WfSlot, WfSlots, WfScope,
      ParseString, EncodeString, Concat, Occurs, ParseN, ParseInt, Bytes32, IsInt32,
      IsByteString;
    var parent :- ReadExp(rd);
    var n :- rd.ReadInt();
    var slots :- ReadSlots(rd, n);
    r := Ok(ObjectExp(parent, slots));
  }

  method ReadSetSlotExp(rd: Reader) returns (r: Result<Exp>)
    modifies rd
    ensures Tracks(r, ParseSetSlotExp(rd.input, old(rd.pos)), rd.pos)
    decreases Rest(rd.input, rd.pos), 2, 0
  {
    hide ParseStrings, ParseExp, ParseExps, ParseSlot, ParseSlots, ParseScope, ParsePrintfExp,
      ParseArrayExp, ParseObjectExp, ParseCallSlotExp, ParseCallExp, ParseIfExp, ParseWhileExp,
      ParseNamed, ParseFn, ParseSeqStmt, EncodeExp, EncodeExps, EncodeSlot, EncodeSlots,
      EncodeScope, WfExp, WfExps, WfStrings, WfSlot, WfSlots, WfScope, ParseString,
      EncodeString, Concat, Occurs, ParseN, ParseInt, Bytes32, IsInt32, IsByteString;
    var name :- rd.ReadString();
    var exp :- ReadExp(rd);
    var value :- ReadExp(rd);
    r := Ok(SetSlotExp(name, exp, value));
  }

  method ReadCallSlotExp(rd: Reader) returns (r: Result<Exp>)
    modifies rd
    ensures Tracks(r, ParseCallSlotExp(rd.input, old(rd.pos)), rd.pos)
    decreases Rest(rd.input, rd.pos), 2, 0
  {
    hide ParseStrings, ParseExp, ParseExps, ParseSlot, ParseSlots, ParseScope, ParsePrintfExp,
      ParseArrayExp, ParseObjectExp, ParseSetSlotExp, ParseCallExp, ParseIfExp, ParseWhileExp,
      ParseNamed, ParseFn, ParseSeqStmt, EncodeExp, EncodeExps, EncodeSlot, EncodeSlots,
      EncodeScope, WfExp, WfExps, WfStrings, WfSlot, WfSlots, WfScope, ParseString,
      EncodeString, Concat, Occurs, ParseN, ParseInt, Bytes32, IsInt32, IsByteString;
    var name :- rd.ReadString();
    var exp :- ReadExp(rd);
    var n :- rd.ReadInt();
    var args :- ReadExps(rd, n);
    r := Ok(CallSlotExp(name, exp, args));
  }

  method ReadCallExp(rd: Reader) returns (r: Result<Exp>)
    modifies rd
    ensures Tracks(r, ParseCallExp(rd.input, old(rd.pos)), rd.pos)
    decreases Rest(rd.input, rd.pos), 2, 0
  {
    hide ParseStrings, ParseExp, ParseExps, ParseSlot, ParseSlots, ParseScope, ParsePrintfExp,
      ParseArrayExp, ParseObjectExp, ParseSetSlotExp, ParseCallSlotExp, ParseIfExp,
      ParseWhileExp, ParseNamed, ParseFn, ParseSeqStmt, EncodeExp, EncodeExps, EncodeSlot,
      EncodeSlots, EncodeScope, WfExp, WfExps, WfStrings, WfSlot, WfSlots, WfScope,
      ParseString, EncodeString, Concat, Occurs, ParseN, ParseInt, Bytes32, IsInt32,
      IsByteString;
    var name :- rd.ReadString();
    var n :- rd.ReadInt();
    var args :- ReadExps(rd, n);
    r := Ok(CallExp(name, args));
  }

  method ReadIfExp(rd: Reader) returns (r: Result<Exp>)
    modifies rd
    ensures Tracks(r, ParseIfExp(rd.input, old(rd.pos)), rd.pos)
    decreases Rest(rd.input, rd.pos), 2, 0
  {
    hide ParseStrings, ParseExp, ParseExps, ParseSlot, ParseSlots, ParseScope, ParsePrintfExp,
      ParseArrayExp, ParseObjectExp, ParseSetSlotExp, ParseCallSlotExp, ParseCallExp,
      ParseWhileExp, ParseNamed, ParseFn, ParseSeqStmt, EncodeExp, EncodeExps, EncodeSlot,
      EncodeSlots, EncodeScope, WfExp, WfExps, WfStrings, WfSlot, WfSlots, WfScope,
      ParseString, EncodeString, Concat, Occurs, ParseN, ParseInt, Bytes32, IsInt32,
      IsByteString;
    var pred :- ReadExp(rd);
    var conseq :- ReadScope(rd);
    var alt :- ReadScope(rd);
    r := Ok(IfExp(pred, conseq, alt));
  }

  method ReadWhileExp(rd: Reader) returns (r: Result<Exp>)
    modifies rd
    ensures Tracks(r, ParseWhileExp(rd.input, old(rd.pos)), rd.pos)
    decreases Rest(rd.input, rd.pos), 2, 0
  {
    hide ParseStrings, ParseExp, ParseExps, ParseSlot, ParseSlots, ParseScope, ParsePrintfExp,
      ParseArrayExp, ParseObjectExp, ParseSetSlotExp, ParseCallSlotExp, ParseCallExp,
      ParseIfExp, ParseNamed, ParseFn, ParseSeqStmt, EncodeExp, EncodeExps, EncodeSlot,
      EncodeSlots, EncodeScope, WfExp, WfExps, WfStrings, WfSlot, WfSlots, WfScope,
      ParseString, EncodeString, Concat, Occurs, ParseN, ParseInt, Bytes32, IsInt32,
      IsByteString;
    var pred :- ReadExp(rd);
    var body :- ReadScope(rd);
    r := Ok(WhileExp(pred, body));
  }

  method ReadNamed(rd: Reader) returns (r: Result<(string, Exp)>)
    modifies rd
    ensures Tracks(r, ParseNamed(rd.input, old(rd.pos)), rd.pos)
    decreases Rest(rd.input, rd.pos), 2, 0
  {
    hide ParseStrings, ParseExp, ParseExps, ParseSlot, ParseSlots, ParseScope, ParsePrintfExp,
      ParseArrayExp, ParseObjectExp, ParseSetSlotExp, ParseCallSlotExp, ParseCallExp,
      ParseIfExp, ParseWhileExp, ParseFn, ParseSeqStmt, EncodeExp, EncodeExps, EncodeSlot,
      EncodeSlots, EncodeScope, WfExp, WfExps, WfStrings, WfSlot, WfSlots, WfScope,
      ParseString, EncodeString, Concat, Occurs, ParseN, ParseInt, Bytes32, IsInt32,
      IsByteString;
    var name :- rd.ReadString();
    var exp :- ReadExp(rd);
    r := Ok((name, exp));
  }

  method ReadFn(rd: Reader) returns (r: Result<(string, seq<string>, ScopeStmt)>)
    modifies rd
    ensures Tracks(r, ParseFn(rd.input, old(rd.pos)), rd.pos)
    decreases Rest(rd.input, rd.pos), 2, 0
  {
    hide ParseStrings, ParseExp, ParseExps, ParseSlot, ParseSlots, ParseScope, ParsePrintfExp,
      ParseArrayExp, ParseObjectExp, ParseSetSlotExp, ParseCallSlotExp, ParseCallExp,
      ParseIfExp, ParseWhileExp, ParseNamed, ParseSeqStmt, EncodeExp, EncodeExps, EncodeSlot,
      EncodeSlots, EncodeScope, WfExp, WfExps, WfStrings, WfSlot, WfSlots, WfScope,
      ParseString, EncodeString, Concat, Occurs, ParseN, ParseInt, Bytes32, IsInt32,
      IsByteString;
    var name :- rd.ReadString();
    var n :- rd.ReadInt();
    var args :- ReadStrings(rd, n);
    var body :- ReadScope(rd);
    r := Ok((name, args, body));
  }

  /** read_exps */
  method ReadExps(rd: Reader, n: int) returns (r: Result<seq<Exp>>)
    modifies rd
    ensures Tracks(r, ParseExps(rd.input, old(rd.pos), n), rd.pos)
    decreases Rest(rd.input, rd.pos), 1, n
  {
    hide ParseStrings, ParseExp, ParseExps, ParseSlot, ParseSlots, ParseScope, ParsePrintfExp,
      ParseArrayExp, ParseObjectExp, ParseSetSlotExp, ParseCallSlotExp, ParseCallExp,
      ParseIfExp, ParseWhileExp, ParseNamed, ParseFn, ParseSeqStmt, EncodeExp, EncodeExps,
      EncodeSlot, EncodeSlots, EncodeScope, WfExp, WfExps, WfStrings, WfSlot, WfSlots, WfScope,
      ParseString, EncodeString, Concat, Occurs, ParseN, ParseInt, Bytes32, IsInt32,
      IsByteString;
    ghost var start := rd.pos;
    PrependNil(ParseExps(rd.input, rd.pos, n));
    var exps: seq<Exp> := [];
    var i := 0;
    while i < n
      invariant 0 <= i && (i <= n || i == 0) && start <= rd.pos
      invariant ParseExps(rd.input, start, n) == Prepend(exps, ParseExps(rd.input, rd.pos, n - i))
    {
      ExpsStep(rd.input, exps, rd.pos, n - i);
      var x := ReadExp(rd);
      if x.Fatal? {
        return Fatal(x.msg);
      }
      exps := exps + [x.value];
      i := i + 1;
    }
    ExpsDone(rd.input, exps, rd.pos, n - i);
    r := Ok(exps);
  }

  /** read_slot */
  method ReadSlot(rd: Reader) returns (r: Result<SlotStmt>)
    modifies rd
    ensures Tracks(r, ParseSlot(rd.input, old(rd.pos)), rd.pos)
    decreases Rest(rd.input, rd.pos), 0, 0
  {
    hide ParseStrings, ParseExp, ParseExps, ParseSlots, ParseScope, ParsePrintfExp,
      ParseArrayExp, ParseObjectExp, ParseSetSlotExp, ParseCallSlotExp, ParseCallExp,
      ParseIfExp, ParseWhileExp, ParseNamed, ParseFn, ParseSeqStmt, EncodeExp, EncodeExps,
      EncodeSlot, EncodeSlots, EncodeScope, WfExp, WfExps, WfStrings, WfSlot, WfSlots, WfScope,
      ParseString, EncodeString, Concat, Occurs, ParseN, ParseInt, Bytes32, IsInt32,
      IsByteString;
    var tag :- rd.ReadInt();
    if tag == VAR_STMT {
      var f :- ReadNamed(rd);
      r := Ok(SlotVar(f.0, f.1));
    } else if tag == FN_STMT {
      var f :- ReadFn(rd);
      r := Ok(SlotMethod(f.0, f.1, f.2));
    } else {
      r := Fatal("Unrecognized slot with tag");
    }
  }

  /** read_slots */
  method ReadSlots(rd: Reader, n: int) returns (r: Result<seq<SlotStmt>>)
    modifies rd
    ensures Tracks(r, ParseSlots(rd.input, old(rd.pos), n), rd.pos)
    decreases Rest(rd.input, rd.pos), 1, n
  {
    hide ParseStrings, ParseExp, ParseExps, ParseSlot, ParseSlots, ParseScope, ParsePrintfExp,
      ParseArrayExp, ParseObjectExp, ParseSetSlotExp, ParseCallSlotExp, ParseCallExp,
      ParseIfExp, ParseWhileExp, ParseNamed, ParseFn, ParseSeqStmt, EncodeExp, EncodeExps,
      EncodeSlot, EncodeSlots, EncodeScope, WfExp, WfExps, WfStrings, WfSlot, WfSlots, WfScope,
      ParseString, EncodeString, Concat, Occurs, ParseN, ParseInt, Bytes32, IsInt32,
      IsByteString;
    ghost var start := rd.pos;
    PrependNil(ParseSlots(rd.input, rd.pos, n));
    var slots: seq<SlotStmt> := [];
    var i := 0;
    while i < n
      invariant 0 <= i && (i <= n || i == 0) && start <= rd.pos
      invariant ParseSlots(rd.input, start, n) == Prepend(slots, ParseSlots(rd.input, rd.pos, n - i))
    {
      SlotsStep(rd.input, slots, rd.pos, n - i);
      var x := ReadSlot(rd);
      if x.Fatal? {
        return Fatal(x.msg);
      }
      slots := slots + [x.value];
      i := i + 1;
    }
    SlotsDone(rd.input, slots, rd.pos, n - i);
    r := Ok(slots);
  }

  /** read_scopestmt */
  method ReadScope(rd: Reader) returns (r: Result<ScopeStmt>)
    modifies rd
    ensures Tracks(r, ParseScope(rd.input, old(rd.pos)), rd.pos)
    decreases Rest(rd.input, rd.pos), 0, 0
  {
    hide ParseStrings, ParseExp, ParseExps, ParseSlot, ParseSlots, ParsePrintfExp,
      ParseArrayExp, ParseObjectExp, ParseSetSlotExp, ParseCallSlotExp, ParseCallExp,
      ParseIfExp, ParseWhileExp, ParseNamed, ParseFn, ParseSeqStmt, EncodeExp, EncodeExps,
      EncodeSlot, EncodeSlots, EncodeScope, WfExp, WfExps, WfStrings, WfSlot, WfSlots, WfScope,
      ParseString, EncodeString, Concat, Occurs, ParseN, ParseInt, Bytes32, IsInt32,
      IsByteString;
    var tag :- rd.ReadInt();
    if tag == VAR_STMT {
      var f :- ReadNamed(rd);
      r := Ok(ScopeVar(f.0, f.1));
    } else if tag == FN_STMT {
      var f :- ReadFn(rd);
      r := Ok(ScopeFn(f.0, f.1, f.2));
    } else if tag == SEQ_STMT {
      r := ReadSeqStmt(rd);
    } else if tag == EXP_STMT {
      var e :- ReadExp(rd);
      r := Ok(ScopeExp(e));
    } else {
      r := Fatal("Scope statement with unrecognized tag");
    }
  }

  method ReadSeqStmt(rd: Reader) returns (r: Result<ScopeStmt>)
    modifies rd
    ensures Tracks(r, ParseSeqStmt(rd.input, old(rd.pos)), rd.pos)
    decreases Rest(rd.input, rd.pos), 2, 0
  {
    hide ParseStrings, ParseExp, ParseExps, ParseSlot, ParseSlots, ParseScope, ParsePrintfExp,
      ParseArrayExp, ParseObjectExp, ParseSetSlotExp, ParseCallSlotExp, ParseCallExp,
      ParseIfExp, ParseWhileExp, ParseNamed, ParseFn, EncodeExp, EncodeExps, EncodeSlot,
      EncodeSlots, EncodeScope, WfExp, WfExps, WfStrings, WfSlot, WfSlots, WfScope,
      ParseString, EncodeString, Concat, Occurs, ParseN, ParseInt, Bytes32, IsInt32,
      IsByteString;
    var a :- ReadScope(rd);
    var b :- ReadScope(rd);
    r := Ok(ScopeSeq(a, b));
  }

  /** read_ast, on the bytes of the file: the whole file is one scope statement. */
  method ReadAst(input: seq<Byte>) returns (r: Result<ScopeStmt>)
    ensures r.Ok? <==> ParseScope(input, 0).Ok?
    ensures r.Ok? ==> r.value == ParseScope(input, 0).value.0
  {
    var rd := new Reader(input);
    r := ReadScope(rd);
  }

  /** A tree file written from a well-formed tree reads back as that tree. */
  lemma ReadAstOfEncoding(st: ScopeStmt)
    requires WfScope(st)
    ensures ParseScope(EncodeScope(st), 0) == Item(st, |EncodeScope(st)|)
  {
    hide ParseStrings, ParseExp, ParseExps, ParseSlot, ParseSlots, ParseScope, ParsePrintfExp,
      ParseArrayExp, ParseObjectExp, ParseSetSlotExp, ParseCallSlotExp, ParseCallExp,
      ParseIfExp, ParseWhileExp, ParseNamed, ParseFn, ParseSeqStmt, EncodeExp, EncodeExps,
      EncodeSlot, EncodeSlots, EncodeScope, WfExp, WfExps, WfStrings, WfSlot, WfSlots, WfScope,
      ParseString, EncodeString, Concat, ParseN, ParseInt, Bytes32, IsInt32, IsByteString;
    assert EncodeScope(st)[0..|EncodeScope(st)|] == EncodeScope(st);
    ReadBackScope(st, EncodeScope(st), 0);
  }
}
