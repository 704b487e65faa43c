/** The interpreter of the virtual machine (`runvm`, the slot calls and
    the slot lookup).

    A step reads the tag at ip and runs one instruction on the registers
    and heap of a `Machine`.  Every `exit` of the C code is a `Fatal` with
    its message.  What printf prints is not modelled; its failures are. */
module VmExec {
  import opened Wrappers
  import opened Bytes
  import opened Utils
  import opened VmCode
  import opened VmLink
  import opened VmHeap
  import AstEval

  const NOT_AN_INTEGER := "Not an integer!"
  const INT_PARENT := "Int is not a legal parent."
  const ARRAY_PARENT := "Array is not a legal parent."

  /** The model's stop for a parent chain that comes back to an object it
      has searched, where lookup_slot would recurse without end. */
  const PARENT_CYCLE := "Parent chain loops."

  /** ensure_arity's message. */
  function Arity(desired: int, actual: int): string
  {
    "Incorrect arity: Expected " + IntString(desired) + " but received " + IntString(actual) + "."
  }

  //============================================================
  // The operand stack and the heap
  //============================================================

  function Push(m: Machine, x: int): Machine
  {
    m.(vstack := m.vstack + [x])
  }

  /** The record at `a` replaced by `c`. */
  function Store(m: Machine, a: int, c: Cell): Machine
  {
    m.(heap := m.heap.(mem := m.heap.mem[a := c]))
  }

  /** `k` successive vector_pops, collected bottom first: the top `k`
      operands in stack order, and the stack below them. */
  function PopN(vs: seq<int>, k: nat): (r: Result<(seq<int>, seq<int>)>)
    ensures r.Ok? <==> k <= |vs|
    ensures r.Ok? ==> |r.value.0| == k && r.value.1 + r.value.0 == vs
    ensures r.Fatal? ==> r.msg == "Pop from empty vector."
  {
    if k == 0 then Ok(([], vs))
    else
      var p :- PopLast(vs);
      var q :- PopN(p.1, k - 1);
      Ok((q.0 + [p.0], q.1))
  }

  /** push_bool: zeroobj for true, nullobj for false. */
  function PushBool(m: Machine, b: bool): Machine
  {
    Push(m, if b then m.zeroobj else m.nullobj)
  }

  /** push_int: a fresh Int record on top of the stack. */
  function PushInt(classes: Classes, m: Machine, i: int): (r: Result<Machine>)
    ensures r.Ok? ==> |r.value.vstack| == |m.vstack| + 1 && KeepsRegisters(m, r.value)
    ensures r.Ok? ==> var a := r.value.vstack[|m.vstack|]; a in r.value.heap.mem && r.value.heap.mem[a] == IntCell(i)
    ensures m.heap.ptr + 16 <= m.heap.top ==> r.Ok? && r.value.vstack[..|m.vstack|] == m.vstack
  {
    var a :- Halloc(classes, m, 16);
    Ok(Push(Store(a.0, a.1, IntCell(i)), a.1))
  }

  /** The registers other than the operand stack and the heap are kept. */
  predicate KeepsRegisters(m: Machine, r: Machine)
  {
    r.ip == m.ip && r.fp == m.fp && r.n == m.n && |r.fstack| == |m.fstack| && |r.genv| == |m.genv|
  }

  //============================================================
  // Slot lookup
  //============================================================

  /** The first slot from index `i` on with the name, compared as strcmp
      does. */
  function FindSlot(slots: seq<LSlot>, name: string, i: nat): (r: Option<nat>)
    ensures r.Some? ==> i <= r.value < |slots| && Same(slots[r.value].name, name)
    ensures r.Some? ==> forall j :: i <= j < r.value ==> !Same(slots[j].name, name)
    ensures r.None? ==> forall j :: i <= j < |slots| ==> !Same(slots[j].name, name)
    decreases |slots| - i
  {
    if i >= |slots| then None
    else if Same(slots[i].name, name) then Some(i)
    else FindSlot(slots, name, i + 1)
  }

  /** The class of the record at `obj`, when it has one. */
  function ClassOf(classes: Classes, h: Heap, obj: int): Option<LClass>
  {
    if obj in h.mem && 0 <= Tag(h.mem[obj]) < |classes| then classes[Tag(h.mem[obj])] else None
  }

  /** `slot` is the first slot named `name` in the class of `owner`. */
  predicate FirstIn(classes: Classes, h: Heap, owner: int, name: string, slot: LSlot)
  {
    var k := ClassOf(classes, h, owner);
    k.Some? && FindSlot(k.value.slots, name, 0).Some? && k.value.slots[FindSlot(k.value.slots, name, 0).value] == slot
  }

  /** lookup_slot: the first slot with the name in the object's own class,
      else the parent's lookup; fatal at Null.  The result pairs the slot
      with the object whose class holds it.  `seen` holds the objects
      already searched. */
  function LookupSlot(classes: Classes, h: Heap, obj: int, name: string, seen: set<int>): (r: Result<(int, LSlot)>)
    ensures r.Ok? ==> FirstIn(classes, h, r.value.0, name, r.value.1) && r.value.0 !in seen
    ensures obj in h.mem && h.mem[obj].NullCell? ==> r == Fatal("No slot " + name + " for Null.")
    ensures obj !in seen && obj in h.mem && !h.mem[obj].NullCell? && ClassOf(classes, h, obj).Some? && FindSlot(ClassOf(classes, h, obj).value.slots, name, 0).Some? ==>
              r.Ok? && r.value.0 == obj
    decreases h.mem.Keys - seen
  {
    var c :- Deref(h, obj);
    if c.NullCell? then Fatal("No slot " + name + " for Null.")
    else if obj in seen then Fatal(PARENT_CYCLE)
    else
      var k :- GetAt(classes, Tag(c));
      if k.None? then Fatal(UNDEFINED)
      else match FindSlot(k.value.slots, name, 0)
        case Some(i) => Ok((obj, k.value.slots[i]))
        case None =>
          if !c.ObjCell? then Fatal(UNDEFINED)
          else LookupSlot(classes, h, c.parent, name, seen + {obj})
  }

  /** lookup_method: the code address of a method slot. */
  function LookupMethod(classes: Classes, h: Heap, obj: int, name: string): (r: Result<int>)
    ensures r.Ok? <==> LookupSlot(classes, h, obj, name, {}).Ok? && LookupSlot(classes, h, obj, name, {}).value.1.CodeSlot?
  {
    var s :- LookupSlot(classes, h, obj, name, {});
    if !s.1.CodeSlot? then Fatal("Slot " + name + " is not a method slot.") else Ok(s.1.code)
  }

  /** lookup_varslot: a variable slot's index, with the object holding it. */
  function LookupVarSlot(classes: Classes, h: Heap, obj: int, name: string): (r: Result<(int, int)>)
    ensures r.Ok? <==> LookupSlot(classes, h, obj, name, {}).Ok? && LookupSlot(classes, h, obj, name, {}).value.1.VarSlot?
  {
    var s :- LookupSlot(classes, h, obj, name, {});
    if !s.1.VarSlot? then Fatal("Slot " + name + " is not a variable slot.") else Ok((s.0, s.1.idx))
  }

  /** Slot `idx` of the object at `obj`; past its slots C reads beyond the
      record. */
  function SlotRead(h: Heap, obj: int, idx: int): (r: Result<int>)
    ensures r.Ok? <==> obj in h.mem && h.mem[obj].ObjCell? && 0 <= idx < |h.mem[obj].slots|
    ensures r.Ok? ==> r.value == h.mem[obj].slots[idx]
  {
    var c :- Deref(h, obj);
    if c.ObjCell? && 0 <= idx < |c.slots| then Ok(c.slots[idx]) else Fatal(UNDEFINED)
  }

  function SlotWrite(m: Machine, obj: int, idx: int, x: int): (r: Result<Machine>)
    ensures r.Ok? <==> obj in m.heap.mem && m.heap.mem[obj].ObjCell? && 0 <= idx < |m.heap.mem[obj].slots|
    ensures r.Ok? ==> var c := m.heap.mem[obj]; r.value == Store(m, obj, c.(slots := c.slots[idx := x]))
  {
    var c :- Deref(m.heap, obj);
    if c.ObjCell? && 0 <= idx < |c.slots| then Ok(Store(m, obj, c.(slots := c.slots[idx := x]))) else Fatal(UNDEFINED)
  }

  //============================================================
  // Instructions
  //============================================================

  /** INT: a fresh Int with the literal. */
  function ExecInt(L: Linked, m: Machine): Result<Machine>
  {
    var i :- NextInt(L.code, m.ip);
    PushInt(L.classes, m.(ip := i.1), i.0)
  }

  /** PRINTF: print_format reads the operands from `n` below the top, one
      per `~`, through vector_get; then `n` operands are popped and nullobj
      pushed. */
  function ExecPrintf(L: Linked, m: Machine): Result<Machine>
  {
    var a :- NextChar(L.code, m.ip);
    var p :- NextPtr(L.code, a.1);
    var fmt :- LinkStr(L.pool, p.0);
    var k := AstEval.Tildes(CString(fmt));
    if k > 0 && (a.0 > |m.vstack| || k > a.0) then Fatal("Index out of bounds.")
    else
      var q :- PopN(m.vstack, a.0);
      Ok(Push(m.(ip := p.1, vstack := q.1), m.nullobj))
  }

  /** ARRAY: the length is the operand below the top and must be an Int;
      the array is allocated, then the initial value and the length are
      popped and every item set to the initial value. */
  function ExecArray(L: Linked, m: Machine): Result<Machine>
  {
    var lr :- GetAt(m.vstack, |m.vstack| - 2);
    var lc :- Deref(m.heap, lr);
    if !lc.IntCell? then Fatal(NOT_AN_INTEGER)
    else if lc.value < 0 then Fatal(UNDEFINED)
    else
      var a :- Halloc(L.classes, m, 16 + 8 * lc.value);
      FillArray(a.0, a.1, lc.value)
  }

  /** The end of ARRAY, once the record at `a` is allocated: the initial
      value and the length popped, every item the initial value, and the
      array pushed. */
  function FillArray(m: Machine, a: int, len: nat): Result<Machine>
  {
    var pi :- PopLast(m.vstack);
    var pl :- PopLast(pi.1);
    Ok(Push(Store(m.(vstack := pl.1), a, ArrayCell(Repeat(len, pi.0))), a))
  }

  /** OBJECT: allocate, pop the slots (the top operand is the last slot),
      pop the parent, which must not be an Int or an Array. */
  function ExecObject(L: Linked, m: Machine): Result<Machine>
  {
    var a :- NextChar(L.code, m.ip);
    var c :- NextShort(L.code, a.1);
    if c.0 < 3 then Fatal(UNDEFINED)
    else
      var h :- Halloc(L.classes, m.(ip := c.1), 16 + 8 * a.0);
      PlaceObject(h.0, h.1, c.0, a.0)
  }

  /** The end of OBJECT, once the record at `o` is allocated: the slots
      and the parent popped, the parent checked, the object pushed. */
  function PlaceObject(m: Machine, o: int, tag: int, arity: nat): Result<Machine>
  {
    var sl :- PopN(m.vstack, arity);
    var pp :- PopLast(sl.1);
    Attach(m.(vstack := pp.1), o, tag, pp.0, sl.0)
  }

  /** ensure_parent, then the object's fields written and the object
      pushed. */
  function Attach(m: Machine, o: int, tag: int, parent: int, slots: seq<int>): Result<Machine>
  {
    var pc :- Deref(m.heap, parent);
    if pc.IntCell? then Fatal(INT_PARENT)
    else if pc.ArrayCell? then Fatal(ARRAY_PARENT)
    else Ok(Push(Store(m, o, ObjCell(tag, parent, slots)), o))
  }

  /** The value of the variable slot named `name` of the object at `obj`,
      read from the object whose class holds the slot. */
  function SlotValue(classes: Classes, h: Heap, obj: int, name: string): Result<int>
  {
    var s :- LookupVarSlot(classes, h, obj, name);
    SlotRead(h, s.0, s.1)
  }

  /** The read as SLOT_INS writes it: the index found is applied to the
      popped object itself, even when the slot belongs to an ancestor's
      class. */
  function SlotValueAsWritten(classes: Classes, h: Heap, obj: int, name: string): Result<int>
  {
    var s :- LookupVarSlot(classes, h, obj, name);
    SlotRead(h, obj, s.1)
  }

  /** The variable slot named `name` of the object at `obj` set to `x`, in
      the object whose class holds the slot. */
  function SetSlotValue(classes: Classes, m: Machine, obj: int, name: string, x: int): Result<Machine>
  {
    var s :- LookupVarSlot(classes, m.heap, obj, name);
    SlotWrite(m, s.0, s.1, x)
  }

  /** The store as SET_SLOT_INS writes it: into the popped object itself. */
  function SetSlotValueAsWritten(classes: Classes, m: Machine, obj: int, name: string, x: int): Result<Machine>
  {
    var s :- LookupVarSlot(classes, m.heap, obj, name);
    SlotWrite(m, obj, s.1, x)
  }

  /** SLOT: pop the object and push the value of the variable slot found
      for the name. */
  function ExecSlot(L: Linked, m: Machine): Result<Machine>
  {
    var p :- NextPtr(L.code, m.ip);
    var name :- LinkStr(L.pool, p.0);
    var o :- PopLast(m.vstack);
    var v :- SlotValue(L.classes, m.heap, o.0, name);
    Ok(Push(m.(ip := p.1, vstack := o.1), v))
  }

  /** SET_SLOT: pop the value and the object, store the value in the slot
      found for the name, in the object that holds it, and push the value. */
  function ExecSetSlot(L: Linked, m: Machine): Result<Machine>
  {
    var p :- NextPtr(L.code, m.ip);
    var name :- LinkStr(L.pool, p.0);
    var x :- PopLast(m.vstack);
    var o :- PopLast(x.1);
    SetAndPush(L.classes, m.(ip := p.1, vstack := o.1), o.0, name, x.0)
  }

  /** The end of SET_SLOT: the store, then the value pushed back. */
  function SetAndPush(classes: Classes, m: Machine, obj: int, name: string, x: int): Result<Machine>
  {
    var w :- SetSlotValue(classes, m, obj, name, x);
    Ok(Push(w, x))
  }

  /** A call: the return address and the caller's frame pointer pushed on
      the frame stack, the new frame starting at them. */
  function Call(m: Machine, target: int): Machine
  {
    m.(fstack := m.fstack + [m.ip, m.fp], fp := |m.fstack|, ip := target)
  }

  /** CALL_SLOT: the receiver lies `n` operands deep; Ints and Arrays run
      their primitives, Null has no slots, an object calls its method. */
  function ExecCallSlot(L: Linked, m: Machine): Result<Machine>
  {
    var a :- NextChar(L.code, m.ip);
    var p :- NextPtr(L.code, a.1);
    var name :- LinkStr(L.pool, p.0);
    var m1 := m.(ip := p.1, n := a.0);
    var obj :- GetAt(m.vstack, |m.vstack| - a.0);
    var c :- Deref(m.heap, obj);
    if c.IntCell? then CallIntSlot(L, m1, name)
    else if c.ArrayCell? then CallArraySlot(L, m1, name)
    else if c.NullCell? then Fatal("No slot named " + name + " for Null.")
    else
      var code :- LookupMethod(L.classes, m.heap, obj, name);
      Ok(Call(m1, code))
  }

  /** CALL: a call of the function at the linked address. */
  function ExecCall(L: Linked, m: Machine): Result<Machine>
  {
    var a :- NextChar(L.code, m.ip);
    var p :- NextPtr(L.code, a.1);
    Ok(Call(m.(ip := p.1, n := a.0), p.0))
  }

  /** SET_LOCAL: the top operand, kept on the stack, stored in a local. */
  function ExecSetLocal(L: Linked, m: Machine): Result<Machine>
  {
    var i :- NextShort(L.code, m.ip);
    var v :- PeekLast(m.vstack);
    var fs :- SetAt(m.fstack, m.fp + 2 + i.0, v);
    Ok(m.(ip := i.1, fstack := fs))
  }

  function ExecGetLocal(L: Linked, m: Machine): Result<Machine>
  {
    var i :- NextShort(L.code, m.ip);
    var v :- GetAt(m.fstack, m.fp + 2 + i.0);
    Ok(Push(m.(ip := i.1), v))
  }

  /** SET_GLOBAL: genv is a C array with no bounds check. */
  function ExecSetGlobal(L: Linked, m: Machine): Result<Machine>
  {
    var i :- NextShort(L.code, m.ip);
    var v :- PeekLast(m.vstack);
    if i.0 >= |m.genv| then Fatal(UNDEFINED)
    else Ok(m.(ip := i.1, genv := m.genv[i.0 := v]))
  }

  function ExecGetGlobal(L: Linked, m: Machine): Result<Machine>
  {
    var i :- NextShort(L.code, m.ip);
    if i.0 >= |m.genv| then Fatal(UNDEFINED)
    else Ok(Push(m.(ip := i.1), m.genv[i.0]))
  }

  /** BRANCH: pop, and jump unless the operand is Null. */
  function ExecBranch(L: Linked, m: Machine): Result<Machine>
  {
    var p :- NextPtr(L.code, m.ip);
    var o :- PopLast(m.vstack);
    var c :- Deref(m.heap, o.0);
    Ok(m.(ip := if c.NullCell? then p.1 else p.0, vstack := o.1))
  }

  function ExecGoto(L: Linked, m: Machine): Result<Machine>
  {
    var p :- NextPtr(L.code, m.ip);
    Ok(m.(ip := p.0))
  }

  /** RETURN: ip and fp back from the frame's two control words, the frame
      cut off the frame stack; the operand stack is left alone. */
  function ExecReturn(L: Linked, m: Machine): Result<Machine>
  {
    var oldfp :- GetAt(m.fstack, m.fp + 1);
    var rip :- GetAt(m.fstack, m.fp);
    var fs :- SetLength(m.fstack, m.fp, m.nullobj);
    Ok(m.(ip := rip, fp := oldfp, fstack := fs))
  }

  function ExecDrop(L: Linked, m: Machine): Result<Machine>
  {
    var o :- PopLast(m.vstack);
    Ok(m.(vstack := o.1))
  }

  /** The loop of FRAME from local `i - 1` down to local 0, each filled by
      a vector_pop. */
  function PopLocals(vs: seq<int>, fs: seq<int>, fp: int, i: int): (r: Result<(seq<int>, seq<int>)>)
    ensures r.Ok? ==> |r.value.1| >= |fs|
    decreases i
  {
    if i <= 0 then Ok((vs, fs))
    else
      var p :- PopLast(vs);
      var f :- SetAt(fs, fp + 2 + i - 1, p.0);
      PopLocals(p.1, f, fp, i - 1)
  }

  /** FRAME: the call's arity must be nargs; the frame is sized for the
      arguments and locals, padded with nullobj, and the arguments popped
      into their locals. */
  function ExecFrame(L: Linked, m: Machine): Result<Machine>
  {
    var a :- NextChar(L.code, m.ip);
    var b :- NextShort(L.code, a.1);
    if m.n != a.0 then Fatal(Arity(a.0, m.n))
    else
      var fs :- SetLength(m.fstack, m.fp + 2 + a.0 + b.0, m.nullobj);
      var r :- PopLocals(m.vstack, fs, m.fp, m.n);
      Ok(m.(ip := b.1, vstack := r.0, fstack := r.1))
  }

  //============================================================
  // The primitives
  //============================================================

  /** call_int_slot: two operands, the argument an Int; comparisons push
      zeroobj or nullobj, arithmetic a fresh Int. */
  function CallIntSlot(L: Linked, m: Machine, name: string): Result<Machine>
  {
    if m.n != 2 then Fatal(Arity(2, m.n))
    else
      var py :- PopLast(m.vstack);
      var px :- PopLast(py.1);
      IntApply(L.classes, m.(vstack := px.1), name, px.0, py.0)
  }

  /** The rest of call_int_slot once the receiver `x` and the argument `y`
      are popped. */
  function IntApply(classes: Classes, m: Machine, name: string, x: int, y: int): Result<Machine>
  {
    var cy :- Deref(m.heap, y);
    var cx :- Deref(m.heap, x);
    if !cy.IntCell? then Fatal(NOT_AN_INTEGER)
    else if !cx.IntCell? then Fatal(UNDEFINED)
    else if !AstEval.IsIntSlot(name) then Fatal("No slot named " + name + " for Int.")
    else
      var v :- AstEval.IntOp(name, cx.value, cy.value);
      match v
      case Bool(b) => Ok(PushBool(m, b))
      case Int(i) => PushInt(classes, m, i)
  }

  /** ensure_index: an Int inside the array's items. */
  function EnsureIndex(ci: Cell, ca: Cell): (r: Result<int>)
    ensures r.Ok? <==> ci.IntCell? && ca.ArrayCell? && 0 <= ci.value < |ca.items|
    ensures r.Ok? ==> r.value == ci.value
  {
    if !ci.IntCell? then Fatal(NOT_AN_INTEGER)
    else if !ca.ArrayCell? then Fatal(UNDEFINED)
    else if ci.value < 0 || ci.value >= |ca.items| then Fatal("Index " + IntString(ci.value) + " is out of bounds.")
    else Ok(ci.value)
  }

  /** call_array_slot: get, set and length. */
  /** The "set" case: three operands (array, index, value), the element
      stored in place and Null pushed. */
  function ArraySet(m: Machine): Result<Machine>
  {
    if m.n != 3 then Fatal(Arity(3, m.n))
    else
      var pv :- PopLast(m.vstack);
      var pi :- PopLast(pv.1);
      var pa :- PopLast(pi.1);
      SetElement(m.(vstack := pa.1), pa.0, pi.0, pv.0)
  }

  /** Element `i` of the array at `a` set to `v`, and Null pushed. */
  function SetElement(m: Machine, a: int, i: int, v: int): Result<Machine>
  {
    var ci :- Deref(m.heap, i);
    var ca :- Deref(m.heap, a);
    var k :- EnsureIndex(ci, ca);
    Ok(Push(Store(m, a, ArrayCell(ca.items[k := v])), m.nullobj))
  }

  function CallArraySlot(L: Linked, m: Machine, name: string): Result<Machine>
  {
    var s := CString(name);
    if s == "get" then
      if m.n != 2 then Fatal(Arity(2, m.n))
      else
        var pi :- PopLast(m.vstack);
        var pa :- PopLast(pi.1);
        var ci :- Deref(m.heap, pi.0);
        var ca :- Deref(m.heap, pa.0);
        var k :- EnsureIndex(ci, ca);
        Ok(Push(m.(vstack := pa.1), ca.items[k]))
    else if s == "set" then ArraySet(m)
    else if s == "length" then
      if m.n != 1 then Fatal(Arity(1, m.n))
      else
        var pa :- PopLast(m.vstack);
        var ca :- Deref(m.heap, pa.0);
        if !ca.ArrayCell? then Fatal(UNDEFINED)
        else PushInt(L.classes, m.(vstack := pa.1), |ca.items|)
    else Fatal("No slot named " + name + " for Array.")
  }

  //============================================================
  // runvm
  //============================================================

  /** One round of runvm's loop: the tag at ip, then its instruction. */
  function Step(L: Linked, m: Machine): Result<Machine>
  {
    var t :- NextChar(L.code, m.ip);
    var op := t.0;
    var m1 := m.(ip := t.1);
    if op == INT_INS then ExecInt(L, m1)
    else if op == NULL_INS then Ok(Push(m1, m1.nullobj))
    else if op == PRINTF_INS then ExecPrintf(L, m1)
    else if op == ARRAY_INS then ExecArray(L, m1)
    else if op == OBJECT_INS then ExecObject(L, m1)
    else if op == SLOT_INS then ExecSlot(L, m1)
    else if op == SET_SLOT_INS then ExecSetSlot(L, m1)
    else if op == CALL_SLOT_INS then ExecCallSlot(L, m1)
    else if op == CALL_INS then ExecCall(L, m1)
    else if op == SET_LOCAL_INS then ExecSetLocal(L, m1)
    else if op == GET_LOCAL_INS then ExecGetLocal(L, m1)
    else if op == SET_GLOBAL_INS then ExecSetGlobal(L, m1)
    else if op == GET_GLOBAL_INS then ExecGetGlobal(L, m1)
    else if op == BRANCH_INS then ExecBranch(L, m1)
    else if op == GOTO_INS then ExecGoto(L, m1)
    else if op == RETURN_INS then ExecReturn(L, m1)
    else if op == DROP_INS then ExecDrop(L, m1)
    else if op == FRAME_INS then ExecFrame(L, m1)
    else Fatal("Unknown tag: " + IntString(Signed8(op)))
  }

  /** runvm with at most `fuel` rounds: it stops when ip is the null
      pointer. */
  function Run(L: Linked, m: Machine, fuel: nat): (r: Result<Machine>)
    ensures r.Ok? ==> r.value.ip == 0
    decreases fuel
  {
    if m.ip == 0 then Ok(m)
    else if fuel == 0 then Fatal(AstEval.OUT_OF_FUEL)
    else
      var m1 :- Step(L, m);
      Run(L, m1, fuel - 1)
  }

  /** initvm: ip at the entry, fp and n zero, empty operand stack, the
      default frame of two zero words, nullobj and zeroobj the first two
      records of the heap and every global nullobj. */
  function Init(L: Linked): Machine
  {
    Machine(L.entry, 0, 0, [], [0, 0], seq(|L.globals|, _ => SPACE_A), SPACE_A, SPACE_A + 16, FirstHeap())
  }

  /** init_heap, alloc_null and alloc_int(0): the null record then the
      zero record at the start of the first space. */
  function FirstHeap(): Heap
  {
    Heap(map[SPACE_A := NullCell, SPACE_A + 16 := IntCell(0)], SPACE_A, SPACE_B, SPACE_A + 32, SPACE_A + HEAP_SIZE)
  }

  //============================================================
  // Slot lookup: what it finds
  //============================================================

  /** A lookup that succeeds having searched `seen` first succeeds the same
      way having searched less. */
  lemma {:induction false} LookupSeenLess(classes: Classes, h: Heap, obj: int, name: string, seen: set<int>, fewer: set<int>)
    requires LookupSlot(classes, h, obj, name, seen).Ok? && fewer <= seen
    ensures LookupSlot(classes, h, obj, name, fewer) == LookupSlot(classes, h, obj, name, seen)
    decreases h.mem.Keys - seen
  {
    var c := h.mem[obj];
    var k := classes[Tag(c)];
    if FindSlot(k.value.slots, name, 0).None? {
      LookupSeenLess(classes, h, c.parent, name, seen + {obj}, fewer + {obj});
    }
  }

  /** Shadowing: a slot of the object's own class is found first. */
  lemma OwnSlotFound(classes: Classes, h: Heap, obj: int, name: string, i: nat)
    requires obj in h.mem && h.mem[obj].ObjCell? && ClassOf(classes, h, obj).Some?
    requires FindSlot(ClassOf(classes, h, obj).value.slots, name, 0) == Some(i)
    ensures LookupSlot(classes, h, obj, name, {}) == Ok((obj, ClassOf(classes, h, obj).value.slots[i]))
  {
  }

  /** Inheritance: an object whose class has no slot with the name finds
      what its parent finds. */
  lemma InheritedSlotFound(classes: Classes, h: Heap, obj: int, name: string)
    requires obj in h.mem && h.mem[obj].ObjCell? && ClassOf(classes, h, obj).Some?
    requires FindSlot(ClassOf(classes, h, obj).value.slots, name, 0).None?
    requires LookupSlot(classes, h, obj, name, {}).Ok?
    ensures LookupSlot(classes, h, obj, name, {}) == LookupSlot(classes, h, h.mem[obj].parent, name, {})
  {
    var c := h.mem[obj];
    assert classes[Tag(c)] == ClassOf(classes, h, obj);
    assert GetAt(classes, Tag(c)) == Ok(classes[Tag(c)]);
    assert {} + {obj} == {obj};
    assert LookupSlot(classes, h, obj, name, {}) == LookupSlot(classes, h, c.parent, name, {obj});
    LookupSeenLess(classes, h, c.parent, name, {obj}, {});
  }

  /** SLOT on an object that does not define the variable reads it from
      its parent. */
  lemma InheritedSlotValue(classes: Classes, h: Heap, obj: int, name: string)
    requires obj in h.mem && h.mem[obj].ObjCell? && ClassOf(classes, h, obj).Some?
    requires FindSlot(ClassOf(classes, h, obj).value.slots, name, 0).None?
    requires SlotValue(classes, h, obj, name).Ok?
    ensures SlotValue(classes, h, obj, name) == SlotValue(classes, h, h.mem[obj].parent, name)
  {
    InheritedSlotFound(classes, h, obj, name);
  }

  /** A child class with `var y` under a parent object with `var x`. */
  const PARENT_CLASS := LClass(1, 1, [VarSlot("x", 0)])
  const CHILD_CLASS := LClass(1, 1, [VarSlot("y", 0)])
  const TWO_CLASSES: Classes := RESERVED + [Some(PARENT_CLASS), Some(CHILD_CLASS)]
  const PARENT_OBJ := SPACE_A + 32
  const CHILD_OBJ := SPACE_A + 56
  const TWO_OBJECTS := Heap(map[SPACE_A := NullCell, SPACE_A + 16 := IntCell(0), SPACE_A + 32 := ObjCell(3, SPACE_A, [SPACE_A + 16]),
                                SPACE_A + 56 := ObjCell(4, SPACE_A + 32, [SPACE_A])],
                            SPACE_A, SPACE_B, SPACE_A + 80, SPACE_A + HEAP_SIZE)

  /** As SLOT_INS is written, `child.x` yields the child's own `y` (the
      Null in its slot 0) instead of the parent's `x` (the Int 0). */
  lemma SlotAsWrittenReadsReceiver()
    ensures SlotValueAsWritten(TWO_CLASSES, TWO_OBJECTS, CHILD_OBJ, "x") == Ok(SPACE_A)
    ensures SlotValue(TWO_CLASSES, TWO_OBJECTS, CHILD_OBJ, "x") == Ok(SPACE_A + 16)
  {
    var h := TWO_OBJECTS;
    assert ClassOf(TWO_CLASSES, h, CHILD_OBJ) == Some(CHILD_CLASS);
    assert ClassOf(TWO_CLASSES, h, PARENT_OBJ) == Some(PARENT_CLASS);
    assert CString("x") == "x" && CString("y") == "y";
    assert FindSlot(CHILD_CLASS.slots, "x", 0).None?;
    assert FindSlot(PARENT_CLASS.slots, "x", 0) == Some(0);
    assert LookupSlot(TWO_CLASSES, h, PARENT_OBJ, "x", {CHILD_OBJ}) == Ok((PARENT_OBJ, VarSlot("x", 0)));
    assert LookupSlot(TWO_CLASSES, h, CHILD_OBJ, "x", {}) == Ok((PARENT_OBJ, VarSlot("x", 0)));
  }

  /** As SET_SLOT_INS is written, `child.x = o` stores into the child's
      own `y`, and reading `child.x` back still yields the parent's 0. */
  lemma SetSlotAsWrittenMissesOwner()
    ensures var m := Machine(0, 0, 0, [], [0, 0], [], SPACE_A, SPACE_A + 16, TWO_OBJECTS);
            var r := SetSlotValueAsWritten(TWO_CLASSES, m, CHILD_OBJ, "x", PARENT_OBJ);
            r.Ok? && SlotValue(TWO_CLASSES, r.value.heap, CHILD_OBJ, "x") == Ok(SPACE_A + 16)
            && SlotValue(TWO_CLASSES, r.value.heap, CHILD_OBJ, "y") == Ok(PARENT_OBJ)
  {
    var m := Machine(0, 0, 0, [], [0, 0], [], SPACE_A, SPACE_A + 16, TWO_OBJECTS);
    var h := TWO_OBJECTS;
    assert CString("x") == "x" && CString("y") == "y";
    assert ClassOf(TWO_CLASSES, h, CHILD_OBJ) == Some(CHILD_CLASS);
    assert ClassOf(TWO_CLASSES, h, PARENT_OBJ) == Some(PARENT_CLASS);
    assert FindSlot(CHILD_CLASS.slots, "x", 0).None?;
    assert FindSlot(CHILD_CLASS.slots, "y", 0) == Some(0);
    assert FindSlot(PARENT_CLASS.slots, "x", 0) == Some(0);
    assert LookupSlot(TWO_CLASSES, h, PARENT_OBJ, "x", {CHILD_OBJ}) == Ok((PARENT_OBJ, VarSlot("x", 0)));
    assert LookupSlot(TWO_CLASSES, h, CHILD_OBJ, "x", {}) == Ok((PARENT_OBJ, VarSlot("x", 0)));
    assert LookupVarSlot(TWO_CLASSES, h, CHILD_OBJ, "x") == Ok((PARENT_OBJ, 0));
    assert [SPACE_A][0 := PARENT_OBJ] == [PARENT_OBJ];
    var r := SetSlotValueAsWritten(TWO_CLASSES, m, CHILD_OBJ, "x", PARENT_OBJ).value;
    var g := r.heap;
    assert g == h.(mem := h.mem[CHILD_OBJ := ObjCell(4, PARENT_OBJ, [PARENT_OBJ])]);
    LookupAfterSlotWrite(TWO_CLASSES, h, CHILD_OBJ, ObjCell(4, PARENT_OBJ, [PARENT_OBJ]), CHILD_OBJ, "x", {});
    LookupAfterSlotWrite(TWO_CLASSES, h, CHILD_OBJ, ObjCell(4, PARENT_OBJ, [PARENT_OBJ]), CHILD_OBJ, "y", {});
    assert LookupSlot(TWO_CLASSES, h, CHILD_OBJ, "y", {}) == Ok((CHILD_OBJ, VarSlot("y", 0)));
  }

  /** Writing a slot keeps every object's class and parent, so every
      lookup finds what it found before. */
  lemma {:induction false} LookupAfterSlotWrite(classes: Classes, h: Heap, a: int, c: Cell, obj: int, name: string, seen: set<int>)
    requires a in h.mem && h.mem[a].ObjCell? && c.ObjCell? && c.tag == h.mem[a].tag && c.parent == h.mem[a].parent
    ensures LookupSlot(classes, h.(mem := h.mem[a := c]), obj, name, seen) == LookupSlot(classes, h, obj, name, seen)
    decreases h.mem.Keys - seen
  {
    var g := h.(mem := h.mem[a := c]);
    if obj in h.mem && !h.mem[obj].NullCell? && obj !in seen {
      assert Tag(g.mem[obj]) == Tag(h.mem[obj]);
      if 0 <= Tag(h.mem[obj]) < |classes| && classes[Tag(h.mem[obj])].Some?
         && FindSlot(classes[Tag(h.mem[obj])].value.slots, name, 0).None? && h.mem[obj].ObjCell? {
        assert g.mem[obj].parent == h.mem[obj].parent;
        LookupAfterSlotWrite(classes, h, a, c, h.mem[obj].parent, name, seen + {obj});
      }
    }
  }

  /** Writing a variable slot through the object and reading it back
      through the same object yields the value written. */
  lemma SlotRoundTrip(classes: Classes, m: Machine, obj: int, name: string, x: int)
    requires SetSlotValue(classes, m, obj, name, x).Ok?
    ensures SlotValue(classes, SetSlotValue(classes, m, obj, name, x).value.heap, obj, name) == Ok(x)
  {
    var s := LookupVarSlot(classes, m.heap, obj, name).value;
    var c := m.heap.mem[s.0];
    LookupAfterSlotWrite(classes, m.heap, s.0, c.(slots := c.slots[s.1 := x]), obj, name, {});
  }

  //============================================================
  // The call protocol
  //============================================================

  /** RETURN undoes a call: once the callee's frame sits on top of the
      frames the call left, whatever the callee stored in it, RETURN
      restores the caller's frame stack and frame pointer and resumes
      where the call would have. */
  lemma CallReturn(L: Linked, m: Machine, target: int, callee: Machine)
    requires callee.fp == Call(m, target).fp
    requires |callee.fstack| >= |Call(m, target).fstack| && callee.fstack[..|Call(m, target).fstack|] == Call(m, target).fstack
    ensures ExecReturn(L, callee) == Ok(callee.(ip := m.ip, fp := m.fp, fstack := m.fstack))
  {
    var c := Call(m, target);
    assert callee.fstack[|m.fstack|] == c.fstack[|m.fstack|] == m.ip;
    assert callee.fstack[|m.fstack| + 1] == c.fstack[|m.fstack| + 1] == m.fp;
    assert callee.fstack[..|m.fstack|] == c.fstack[..|m.fstack|] == m.fstack;
  }

  /** One round of FRAME's pops. */
  lemma PopLocalsStep(vs: seq<int>, fs: seq<int>, fp: int, i: int)
    requires 0 < i && 0 <= fp + 2 && fp + 2 + i <= |fs| && i <= |vs|
    ensures PopLocals(vs, fs, fp, i) == PopLocals(vs[..|vs| - 1], fs[fp + 2 + i - 1 := vs[|vs| - 1]], fp, i - 1)
  {
  }

  lemma Splice(vs: seq<int>, fs: seq<int>, f: seq<int>, at: int, i: int)
    requires 0 < i <= |vs| && 0 <= at && at + i <= |fs| && f == fs[at + i - 1 := vs[|vs| - 1]]
    ensures f[..at] + vs[..|vs| - 1][|vs| - 1 - (i - 1)..] + f[at + (i - 1)..] == fs[..at] + vs[|vs| - i..] + fs[at + i..]
  {
    assert f[..at] == fs[..at];
    assert f[at + (i - 1)..] == [vs[|vs| - 1]] + fs[at + i..];
    assert vs[..|vs| - 1][|vs| - 1 - (i - 1)..] == vs[|vs| - i..|vs| - 1];
    assert vs[|vs| - i..] == vs[|vs| - i..|vs| - 1] + [vs[|vs| - 1]];
  }

  /** FRAME's pops: the top `i` operands land, in stack order, in locals
      0 to `i - 1`. */
  lemma {:induction false} PopLocalsMoves(vs: seq<int>, fs: seq<int>, fp: int, i: nat)
    requires 0 <= fp + 2 && fp + 2 + i <= |fs| && i <= |vs|
    ensures PopLocals(vs, fs, fp, i) == Ok((vs[..|vs| - i], fs[..fp + 2] + vs[|vs| - i..] + fs[fp + 2 + i..]))
    decreases i
  {
    if i == 0 {
      assert vs[..|vs|] == vs;
      assert fs[..fp + 2] + vs[|vs|..] + fs[fp + 2..] == fs;
    } else {
      var f := fs[fp + 2 + i - 1 := vs[|vs| - 1]];
      PopLocalsStep(vs, fs, fp, i);
      PopLocalsMoves(vs[..|vs| - 1], f, fp, i - 1);
      Splice(vs, fs, f, fp + 2, i);
      assert vs[..|vs| - 1][..|vs| - 1 - (i - 1)] == vs[..|vs| - i];
    }
  }

  /** FRAME right after a call of the right arity: the frame holds the
      two control words, the arguments in order, then every local set to
      Null, and the arguments have left the operand stack. */
  lemma FrameLayout(L: Linked, m: Machine)
    requires NextChar(L.code, m.ip).Ok? && NextShort(L.code, NextChar(L.code, m.ip).value.1).Ok?
    requires m.n == NextChar(L.code, m.ip).value.0 <= |m.vstack|
    requires 0 <= m.fp && |m.fstack| == m.fp + 2
    ensures var a := NextChar(L.code, m.ip).value.0;
            var b := NextShort(L.code, NextChar(L.code, m.ip).value.1).value;
            ExecFrame(L, m) == Ok(m.(ip := b.1, vstack := m.vstack[..|m.vstack| - a],
                                     fstack := m.fstack + m.vstack[|m.vstack| - a..] + seq(b.0, _ => m.nullobj)))
  {
    var a := NextChar(L.code, m.ip).value.0;
    var b := NextShort(L.code, NextChar(L.code, m.ip).value.1).value;
    var fs := SetLength(m.fstack, m.fp + 2 + a + b.0, m.nullobj).value;
    PopLocalsMoves(m.vstack, fs, m.fp, a);
    assert fs[..m.fp + 2] == m.fstack;
    assert fs[m.fp + 2 + a..] == seq(b.0, _ => m.nullobj);
  }

  /** FRAME is fatal unless the call's arity is the function's. */
  lemma FrameArity(L: Linked, m: Machine)
    requires NextChar(L.code, m.ip).Ok? && NextShort(L.code, NextChar(L.code, m.ip).value.1).Ok?
    requires m.n != NextChar(L.code, m.ip).value.0
    ensures ExecFrame(L, m) == Fatal(Arity(NextChar(L.code, m.ip).value.0, m.n))
  {
  }

  /** One step at a FRAME tag is the FRAME instruction. */
  lemma StepFrame(L: Linked, m: Machine)
    requires NextChar(L.code, m.ip) == Ok((FRAME_INS as int, m.ip + 1))
    ensures Step(L, m) == ExecFrame(L, m.(ip := m.ip + 1))
  {
  }

  /** CALL_SLOT on an object: a call of the method found for the name,
      with the call's arity set. */
  lemma CallSlotObject(L: Linked, m: Machine)
    requires ExecCallSlot(L, m).Ok?
    requires var k := |m.vstack| - NextChar(L.code, m.ip).value.0;
             0 <= k < |m.vstack| && m.vstack[k] in m.heap.mem && m.heap.mem[m.vstack[k]].ObjCell?
    ensures NextChar(L.code, m.ip).Ok? && NextPtr(L.code, NextChar(L.code, m.ip).value.1).Ok?
    ensures LinkStr(L.pool, NextPtr(L.code, NextChar(L.code, m.ip).value.1).value.0).Ok?
    ensures var a := NextChar(L.code, m.ip).value;
            var p := NextPtr(L.code, a.1).value;
            var name := LinkStr(L.pool, p.0).value;
            var code := LookupMethod(L.classes, m.heap, m.vstack[|m.vstack| - a.0], name);
            code.Ok? && ExecCallSlot(L, m) == Ok(Call(m.(ip := p.1, n := a.0), code.value))
  {
    hide CallIntSlot, CallArraySlot, LookupSlot, Arity;
  }

  /** FRAME after a call of arity at least one: the frame pointer stays
      and local 0 holds the operand the arguments start at. */
  lemma FrameArgs(L: Linked, m: Machine, entered: Machine)
    requires ExecFrame(L, m) == Ok(entered)
    requires 0 < m.n <= |m.vstack| && 0 <= m.fp && |m.fstack| == m.fp + 2
    ensures entered.fp == m.fp && entered.fstack[m.fp + 2] == m.vstack[|m.vstack| - m.n]
  {
    FrameLayout(L, m);
    hide ExecFrame, PopLocals;
    var b := NextShort(L.code, NextChar(L.code, m.ip).value.1).value;
    assert entered.fstack == m.fstack + m.vstack[|m.vstack| - m.n..] + seq(b.0, _ => m.nullobj);
    assert entered.fstack[|m.fstack|] == m.vstack[|m.vstack| - m.n..][0];
  }

  /** The receiver of a method call ends up in local 0 of the method's
      frame: CALL_SLOT finds it `n` operands deep, and the FRAME that
      begins every method (see StepFrame) pops it last. */
  lemma ReceiverInLocal0(L: Linked, m: Machine, callee: Machine, entered: Machine)
    requires ExecCallSlot(L, m) == Ok(callee)
    requires var k := |m.vstack| - NextChar(L.code, m.ip).value.0;
             0 <= k < |m.vstack| && m.vstack[k] in m.heap.mem && m.heap.mem[m.vstack[k]].ObjCell?
    requires ExecFrame(L, callee.(ip := callee.ip + 1)) == Ok(entered)
    ensures entered.fp == |m.fstack| && entered.fstack[entered.fp + 2] == m.vstack[|m.vstack| - NextChar(L.code, m.ip).value.0]
  {
    hide ExecCallSlot, ExecFrame, CallIntSlot, CallArraySlot, PopLocals, LookupMethod, LookupSlot, Deref, GetAt, LinkStr;
    CallSlotObject(L, m);
    var a := NextChar(L.code, m.ip).value;
    var p := NextPtr(L.code, a.1).value;
    var code := LookupMethod(L.classes, m.heap, m.vstack[|m.vstack| - a.0], LinkStr(L.pool, p.0).value);
    assert callee == Call(m.(ip := p.1, n := a.0), code.value);
    FrameArgs(L, callee.(ip := callee.ip + 1), entered);
  }

  //============================================================
  // Objects, branching and the primitives
  //============================================================

  /** OBJECT: a tag below 3 names no class; otherwise the record is
      allocated first and PlaceObject (see PlaceLayout) then takes its
      operands from the stack the allocation leaves, which without a
      collection is the stack OBJECT found. */
  lemma ObjectLayout(L: Linked, m: Machine, a: (int, int), c: (int, int), h: (Machine, int), r: Machine)
    requires NextChar(L.code, m.ip) == Ok(a) && NextShort(L.code, a.1) == Ok(c)
    requires Halloc(L.classes, m.(ip := c.1), 16 + 8 * a.0) == Ok(h)
    requires ExecObject(L, m) == Ok(r)
    ensures 3 <= c.0 && PlaceObject(h.0, h.1, c.0, a.0) == Ok(r)
    ensures m.heap.ptr + 16 + 8 * a.0 <= m.heap.top ==> h.0.vstack == m.vstack
  {
    hide PlaceObject, RunGc;
  }

  /** The end of OBJECT on its own: the parent lies below the `arity`
      slots, and the object built from them replaces them. */
  lemma PlaceLayout(m: Machine, o: int, tag: int, arity: nat, r: Machine)
    requires PlaceObject(m, o, tag, arity) == Ok(r)
    ensures var vs := m.vstack;
            arity < |vs| && vs[|vs| - arity - 1] in m.heap.mem
            && !m.heap.mem[vs[|vs| - arity - 1]].IntCell? && !m.heap.mem[vs[|vs| - arity - 1]].ArrayCell?
            && r.vstack == vs[..|vs| - arity - 1] + [o]
            && o in r.heap.mem && r.heap.mem[o] == ObjCell(tag, vs[|vs| - arity - 1], vs[|vs| - arity..])
  {
    var vs := m.vstack;
    var sl := PopN(vs, arity).value;
    hide PopN;
    assert sl.0 == vs[|vs| - arity..] && sl.1 == vs[..|vs| - arity];
    assert sl.1[..|sl.1| - 1] == vs[..|vs| - arity - 1];
  }

  /** Branching on a comparison: a comparison leaves zeroobj for true and
      nullobj for false, and BRANCH jumps exactly when the value is not
      Null, so it jumps exactly when the comparison held. */
  lemma BranchOnBool(L: Linked, m: Machine, b: bool)
    requires m.nullobj in m.heap.mem && m.heap.mem[m.nullobj].NullCell?
    requires m.zeroobj in m.heap.mem && m.heap.mem[m.zeroobj].IntCell?
    requires NextPtr(L.code, m.ip).Ok?
    ensures var p := NextPtr(L.code, m.ip).value;
            ExecBranch(L, PushBool(m, b)) == Ok(m.(ip := if b then p.0 else p.1))
  {
    var m1 := PushBool(m, b);
    assert m1.vstack[..|m1.vstack| - 1] == m.vstack;
  }

  /** BRANCH jumps if and only if the popped value is not Null. */
  lemma BranchIff(L: Linked, m: Machine)
    requires ExecBranch(L, m).Ok?
    ensures var p := NextPtr(L.code, m.ip).value;
            var top := m.vstack[|m.vstack| - 1];
            top in m.heap.mem && ExecBranch(L, m).value.vstack == m.vstack[..|m.vstack| - 1]
            && (ExecBranch(L, m).value.ip == p.0 <== !m.heap.mem[top].NullCell?)
            && (m.heap.mem[top].NullCell? ==> ExecBranch(L, m).value.ip == p.1)
  {
  }

  /** An Int primitive: the receiver below its one argument, both Ints,
      and a name among the Int slots: a comparison pushes zeroobj or
      nullobj, arithmetic a fresh Int, as the tree-walking interpreter's
      IntOp computes them. */
  lemma IntSlotResult(L: Linked, m: Machine, name: string, vs: seq<int>, x: int, y: int)
    requires m.n == 2 && m.vstack == vs + [x, y]
    requires x in m.heap.mem && m.heap.mem[x].IntCell? && y in m.heap.mem && m.heap.mem[y].IntCell?
    requires AstEval.IsIntSlot(name)
    ensures match AstEval.IntOp(name, m.heap.mem[x].value, m.heap.mem[y].value)
            case Fatal(e) => CallIntSlot(L, m, name) == Fatal(e)
            case Ok(Bool(b)) => CallIntSlot(L, m, name) == Ok(PushBool(m.(vstack := vs), b))
            case Ok(Int(i)) => CallIntSlot(L, m, name) == PushInt(L.classes, m.(vstack := vs), i)
  {
    assert (vs + [x, y])[..|vs| + 1] == vs + [x];
    assert (vs + [x])[..|vs|] == vs;
  }

  /** The Int primitives' checks: arity 2, then an Int argument. */
  lemma IntSlotChecks(L: Linked, m: Machine, name: string)
    ensures m.n != 2 ==> CallIntSlot(L, m, name) == Fatal(Arity(2, m.n))
    ensures (m.n == 2 && |m.vstack| >= 2 && m.vstack[|m.vstack| - 1] in m.heap.mem && !m.heap.mem[m.vstack[|m.vstack| - 1]].IntCell?
             && m.vstack[|m.vstack| - 2] in m.heap.mem) ==> CallIntSlot(L, m, name) == Fatal(NOT_AN_INTEGER)
  {
  }

  /** Array set then get: `a.set(i, v)` stores `v` at index `i` only and
      leaves nullobj; `a.get(i)` then yields `v`. */
  lemma ArraySetGet(L: Linked, m: Machine, vs: seq<int>, a: int, i: int, v: int)
    requires m.n == 3 && m.vstack == vs + [a, i, v]
    requires a in m.heap.mem && m.heap.mem[a].ArrayCell? && i in m.heap.mem && m.heap.mem[i].IntCell?
    requires 0 <= m.heap.mem[i].value < |m.heap.mem[a].items|
    ensures var r := CallArraySlot(L, m, "set");
            var k := m.heap.mem[i].value;
            r == Ok(Store(m, a, ArrayCell(m.heap.mem[a].items[k := v])).(vstack := vs + [m.nullobj]))
            && CallArraySlot(L, r.value.(n := 2, vstack := vs + [a, i]), "get") == Ok(r.value.(n := 2, vstack := vs + [v]))
  {
    assert CString("set") == "set" && CString("get") == "get";
    assert (vs + [a, i, v])[..|vs| + 2] == vs + [a, i];
    assert (vs + [a, i])[..|vs| + 1] == vs + [a];
    assert (vs + [a])[..|vs|] == vs;
  }

  /** The Array primitives' arities: get takes 2 operands, set 3 and
      length 1. */
  lemma ArraySlotArity(L: Linked, m: Machine)
    ensures m.n != 2 ==> CallArraySlot(L, m, "get") == Fatal(Arity(2, m.n))
    ensures m.n != 3 ==> CallArraySlot(L, m, "set") == Fatal(Arity(3, m.n))
    ensures m.n != 1 ==> CallArraySlot(L, m, "length") == Fatal(Arity(1, m.n))
  {
    assert CString("set") == "set" && CString("get") == "get" && CString("length") == "length";
  }

  /** get is fatal unless the index is an Int inside the array. */
  lemma ArrayGetIndex(L: Linked, m: Machine, vs: seq<int>, a: int, i: int)
    requires m.n == 2 && m.vstack == vs + [a, i] && a in m.heap.mem && i in m.heap.mem
    ensures CallArraySlot(L, m, "get").Ok? <==> EnsureIndex(m.heap.mem[i], m.heap.mem[a]).Ok?
  {
    assert CString("get") == "get";
    assert (vs + [a, i])[..|vs| + 1] == vs + [a];
  }

  /** length: a fresh Int holding the number of items. */
  lemma ArrayLength(L: Linked, m: Machine, vs: seq<int>, a: int)
    requires m.n == 1 && m.vstack == vs + [a] && a in m.heap.mem && m.heap.mem[a].ArrayCell?
    ensures CallArraySlot(L, m, "length") == PushInt(L.classes, m.(vstack := vs), |m.heap.mem[a].items|)
  {
    assert CString("length") == "length";
    assert (vs + [a])[..|vs|] == vs;
  }

  //============================================================
  // Locals and globals
  //============================================================

  /** A local set and read back through the same index yields the value
      that SET_LOCAL left on top of the stack. */
  lemma LocalRoundTrip(L: Linked, m: Machine, at: int)
    requires ExecSetLocal(L, m).Ok? && NextShort(L.code, at).Ok?
    requires NextShort(L.code, at).value.0 == NextShort(L.code, m.ip).value.0
    ensures var r := ExecSetLocal(L, m).value;
            r.vstack == m.vstack
            && ExecGetLocal(L, r.(ip := at)) == Ok(Push(r.(ip := NextShort(L.code, at).value.1), m.vstack[|m.vstack| - 1]))
  {
  }

  /** The same for a global. */
  lemma GlobalRoundTrip(L: Linked, m: Machine, at: int)
    requires ExecSetGlobal(L, m).Ok? && NextShort(L.code, at).Ok?
    requires NextShort(L.code, at).value.0 == NextShort(L.code, m.ip).value.0
    ensures var r := ExecSetGlobal(L, m).value;
            r.vstack == m.vstack
            && ExecGetGlobal(L, r.(ip := at)) == Ok(Push(r.(ip := NextShort(L.code, at).value.1), m.vstack[|m.vstack| - 1]))
  {
  }

  //============================================================
  // The start and the loop
  //============================================================

  /** The machine initvm sets up meets what the collector needs: its
      allocation pointer is inside the active space and nothing refers
      into the free space, so the collection theorems of VmHeap apply to
      the first collection. */
  lemma InitReady(L: Linked)
    ensures Within(Init(L).heap) && NoneInto(Init(L))
    ensures var m := Init(L);
            m.nullobj in m.heap.mem && m.heap.mem[m.nullobj].NullCell?
            && m.zeroobj in m.heap.mem && m.heap.mem[m.zeroobj] == IntCell(0)
  {
    var m := Init(L);
    var free := Flip(m.heap);
    assert free.base == SPACE_B;
    assert forall i :: 0 <= i < |m.genv| ==> m.genv[i] == SPACE_A;
  }

  /** More fuel changes nothing once the run has stopped. */
  lemma {:induction false} RunMoreFuel(L: Linked, m: Machine, f: nat, g: nat)
    requires Run(L, m, f).Ok? && f <= g
    ensures Run(L, m, g) == Run(L, m, f)
    decreases f
  {
    hide Step;
    if m.ip != 0 {
      var m1 := Step(L, m).value;
      RunMoreFuel(L, m1, f - 1, g - 1);
    }
  }
}
