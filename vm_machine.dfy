/** The globals of the virtual machine in one object, and the C code that
    updates them in place.

    `Vm` holds what `vm.c` keeps in process-wide variables: the code
    buffer, the patch list and the tables of the linker, the classes and
    global names, and the interpreter's registers, stacks, global values
    and heap.  Each method is the C function of the same name, and its
    contract ties the fields after the call to the pure functions of
    `VmLink`, `VmHeap` and `VmExec` applied to the fields before it. */
module VmMachine {
  import opened Wrappers
  import opened Bytes
  import opened Utils
  import opened Bytecode
  import opened VmCode
  import opened VmLink
  import opened VmHeap
  import opened VmExec
  import AstEval

  class Vm {
    // The linker: code_buffer, the patch list, the label, method,
    // function and class tables, the classes and the global names, plus
    // the constants whose strings the code points to and the entry.
    var code: seq<Byte>
    var patches: seq<Patch>
    var entries: seq<Entry>
    var classes: Classes
    var globals: seq<string>
    var values: seq<Value>
    var entry: int

    // The interpreter: ip, fp, n, the operand and frame stacks, genv
    // (a C array of one word per global), nullobj and zeroobj.
    var ip: int
    var fp: int
    var n: int
    var vstack: seq<int>
    var fstack: seq<int>
    var genv: array<int>
    var nullobj: int
    var zeroobj: int

    // The heap: the records of both spaces with heap_mem, free_mem,
    // heap_ptr and heap_top, kept as one value.
    var heap: Heap

    /** What the linker has produced. */
    function Loaded(): Linked
      reads this
    {
      Linked(code, entries, classes, globals, entry, values)
    }

    /** The linker's buffer, patches and table. */
    function Image(): Image
      reads this
    {
      VmLink.Image(code, patches, entries)
    }

    /** The interpreter's registers and heap. */
    function State(): Machine
      reads this, genv
    {
      Machine(ip, fp, n, vstack, fstack, genv[..], nullobj, zeroobj, heap)
    }

    /** The outcome `r` of a method and the state it leaves are what the
        function `s` gives. */
    predicate Follows(r: Outcome, s: Result<Machine>)
      reads this, genv
    {
      (r.Pass? <==> s.Ok?) && (r.Pass? ==> State() == s.value) && (r.Fail? ==> s == Fatal(r.msg))
    }

    /** The linker's results, the patch list and the genv array itself are
        left alone. */
    twostate predicate Kept()
      reads this
    {
      Loaded() == old(Loaded()) && patches == old(patches) && genv == old(genv)
    }

    constructor()
      ensures code == [] && patches == [] && entries == [] && classes == RESERVED && globals == []
      ensures vstack == [] && fstack == [] && genv.Length == 0 && heap.mem == map[]
    {
      code, patches, entries, classes, globals, values, entry := [], [], [], RESERVED, [], [], 0;
      ip, fp, n, vstack, fstack, nullobj, zeroobj := 0, 0, 0, [], [], 0, 0;
      genv := new int[0];
      heap := Heap(map[], 0, 0, 0, 0);
    }

    //============================================================
    // The linker: the code buffer and its placeholders
    //============================================================

    /** The outcome `r` of a linker method and the buffer, patches and
        table it leaves are what the function `s` gives. */
    predicate Built(r: Outcome, s: Result<Image>)
      reads this
    {
      (r.Pass? <==> s.Ok?) && (r.Pass? ==> Image() == s.value) && (r.Fail? ==> s == Fatal(r.msg))
    }

    /** write_char: the low eight bits of `c` after the last byte. */
    method WriteChar(c: int)
      modifies this`code
      ensures code == PutChar(old(code), c)
    {
      code := code + [c % TWO_8];
    }

    /** align_short, align_int and align_ptr: codep moved up to the next
        multiple of `k`. */
    method Align(k: int)
      requires IsAlignment(k)
      modifies this`code
      ensures code == Pad(old(code), k) && |code| % k == 0
    {
      AlignUpBounds(|code|, k);
      code := code + seq(AlignUp(|code|, k) - |code|, _ => 0);
    }

    /** write_short */
    method WriteShort(s: int)
      modifies this`code
      ensures code == PutShort(old(code), s)
    {
      Align(2);
      code := code + Bytes16(s);
    }

    /** write_int */
    method WriteInt(i: int)
      modifies this`code
      ensures code == PutInt(old(code), i)
    {
      Align(4);
      code := code + Bytes32(i);
    }

    /** write_ptr */
    method WritePtr(p: int)
      modifies this`code
      ensures code == PutPtr(old(code), p)
    {
      Align(8);
      code := code + Bytes64(p);
    }

    /** write_frame: the FRAME tag, the argument count, the local count. */
    method WriteFrame(nargs: int, nlocals: int)
      modifies this`code
      ensures code == Frame(old(code), nargs, nlocals)
    {
      WriteChar(FRAME_INS);
      WriteChar(nargs);
      WriteShort(nlocals);
    }

    /** write_class_arity */
    method WriteClassArity(cls: int)
      modifies this`code, this`patches
      ensures Image() == WithClassArity(old(Image()), cls)
    {
      patches := patches + [ClassArityPatch(|code|, cls)];
      WriteChar(0);
    }

    /** write_class_tag */
    method WriteClassTag(cls: int)
      modifies this`code, this`patches
      ensures Image() == WithClassTag(old(Image()), cls)
    {
      Align(2);
      patches := patches + [ClassTagPatch(|code|, cls)];
      WriteShort(0);
    }

    /** write_function_ptr */
    method WriteFunctionPtr(name: string)
      modifies this`code, this`patches
      ensures Image() == WithFunctionPtr(old(Image()), name)
    {
      Align(8);
      patches := patches + [FunctionPatch(|code|, name)];
      WritePtr(0);
    }

    /** write_global_idx */
    method WriteGlobalIdx(name: string)
      modifies this`code, this`patches
      ensures Image() == WithGlobalIdx(old(Image()), name)
    {
      Align(2);
      patches := patches + [GlobalIdxPatch(|code|, name)];
      WriteShort(0);
    }

    /** write_label */
    method WriteLabel(name: string)
      modifies this`code, this`patches
      ensures Image() == WithLabel(old(Image()), name)
    {
      Align(8);
      patches := patches + [LabelPatch(|code|, name)];
      WritePtr(0);
    }

    //============================================================
    // The linker: the table and the globals
    //============================================================

    /** get_label, get_method_pos, get_function_label and get_class_tag:
        the payload of the first entry that answers `k`. */
    method GetEntry(k: Key) returns (r: Result<int>)
      ensures r == TableGet(entries, k)
    {
      for i := 0 to |entries|
        invariant FindFrom(entries, k, i) == FindFrom(entries, k, 0)
      {
        if Answers(entries[i], k) {
          return Ok(Payload(entries[i]));
        }
      }
      return Fatal(Missing(k));
    }

    /** get_global_idx: the index of the first global of that name. */
    method GetGlobalIdx(name: string) returns (r: Result<int>)
      ensures r == GlobalIdx(globals, name)
    {
      for i := 0 to |globals|
        invariant GlobalFrom(globals, name, i) == GlobalFrom(globals, name, 0)
      {
        if Same(globals[i], name) {
          return Ok(i);
        }
      }
      return Fatal("No global with name " + name + ".");
    }

    /** set_label: the label marks the current end of the code. */
    method SetLabel(name: string)
      modifies this`entries
      ensures entries == old(entries) + [LabelEntry(name, |code|)]
    {
      entries := entries + [LabelEntry(name, |code|)];
    }

    /** set_method_label: the method starts at the current end of the code. */
    method SetMethodLabel(idx: int)
      modifies this`entries
      ensures entries == old(entries) + [MethodEntry(idx, |code|)]
    {
      entries := entries + [MethodEntry(idx, |code|)];
    }

    /** set_function_label: the function starts where its method does; a
        method with no entry is fatal. */
    method SetFunctionLabel(name: string, idx: int) returns (r: Outcome)
      modifies this`entries
      ensures var p := TableGet(old(entries), MethodKey(idx));
              (r.Pass? <==> p.Ok?) && (r.Fail? ==> p == Fatal(r.msg) && entries == old(entries))
              && (r.Pass? ==> entries == old(entries) + [FunctionEntry(name, p.value)])
    {
      var pos := GetEntry(MethodKey(idx));
      if pos.Fatal? {
        return Fail(pos.msg);
      }
      entries := entries + [FunctionEntry(name, pos.value)];
      r := Pass;
    }

    /** set_class_tag */
    method SetClassTag(idx: int, cls: int)
      modifies this`entries
      ensures entries == old(entries) + [ClassEntry(idx, cls)]
    {
      entries := entries + [ClassEntry(idx, cls)];
    }

    /** new_global */
    method NewGlobal(name: string)
      modifies this`globals
      ensures globals == old(globals) + [name]
    {
      globals := globals + [name];
    }

    //============================================================
    // The linker: instructions
    //============================================================

    /** link_ins: the code, patches and table after one instruction, or
        the error that stops the linker. */
    method LinkIns(ins: Ins) returns (r: Outcome)
      modifies this`code, this`patches, this`entries
      ensures Built(r, Emit(values, old(Image()), ins))
    {
      hide PutChar, PutShort, PutInt, PutPtr, Pad, WithClassArity, WithClassTag, WithFunctionPtr, WithGlobalIdx, WithLabel;
      r := Pass;
      match ins
      case LabelIns(name) =>
        var s := LinkStr(values, name);
        if s.Fatal? {
          return Fail(s.msg);
        }
        SetLabel(s.value);
      case LitIns(idx) =>
        r := LinkLit(idx);
      case PrintfIns(_, _) =>
        r := LinkStrIns(ins);
      case ArrayIns =>
        WriteChar(ARRAY_INS);
      case ObjectIns(cls) =>
        WriteChar(OBJECT_INS);
        WriteClassArity(cls);
        WriteClassTag(cls);
      case SlotIns(_) =>
        r := LinkStrIns(ins);
      case SetSlotIns(_) =>
        r := LinkStrIns(ins);
      case CallSlotIns(_, _) =>
        r := LinkStrIns(ins);
      case CallIns(_, _) =>
        r := LinkPatched(ins);
      case SetLocalIns(idx) =>
        WriteChar(SET_LOCAL_INS);
        WriteShort(idx);
      case GetLocalIns(idx) =>
        WriteChar(GET_LOCAL_INS);
        WriteShort(idx);
      case SetGlobalIns(_) =>
        r := LinkPatched(ins);
      case GetGlobalIns(_) =>
        r := LinkPatched(ins);
      case BranchIns(_) =>
        r := LinkPatched(ins);
      case GotoIns(_) =>
        r := LinkPatched(ins);
      case ReturnIns =>
        WriteChar(RETURN_INS);
      case DropIns =>
        WriteChar(DROP_INS);
    }

    /** link_ins on a literal: an integer or null constant; any other
        constant is fatal. */
    method LinkLit(idx: int) returns (r: Outcome)
      modifies this`code, this`patches, this`entries
      ensures Built(r, Emit(values, old(Image()), LitIns(idx)))
    {
      hide PutChar, PutInt;
      var v := GetAt(values, idx);
      if v.Fatal? {
        return Fail(v.msg);
      }
      if v.value.IntValue? {
        WriteChar(INT_INS);
        WriteInt(v.value.value);
      } else if v.value.NullValue? {
        WriteChar(NULL_INS);
      } else {
        return Fail("Unrecognized Literal: " + IntString(ValueTag(v.value)));
      }
      r := Pass;
    }

    /** link_ins on the instructions that carry a string pointer in the
        code: the tag, the arity where there is one, then the pointer. */
    method LinkStrIns(ins: Ins) returns (r: Outcome)
      requires ins.PrintfIns? || ins.SlotIns? || ins.SetSlotIns? || ins.CallSlotIns?
      modifies this`code, this`patches, this`entries
      ensures Built(r, Emit(values, old(Image()), ins))
    {
      hide PutChar, PutPtr;
      var name := if ins.PrintfIns? then ins.format else ins.name;
      WriteChar(OpTag(ins));
      if ins.PrintfIns? || ins.CallSlotIns? {
        WriteChar(ins.arity);
      }
      var s := LinkStr(values, name);
      if s.Fatal? {
        return Fail(s.msg);
      }
      WritePtr(name);
      r := Pass;
    }

    /** link_ins on the instructions that leave a placeholder: the tag,
        the arity of a call, then the placeholder for the function, global
        or label. */
    method LinkPatched(ins: Ins) returns (r: Outcome)
      requires ins.CallIns? || ins.SetGlobalIns? || ins.GetGlobalIns? || ins.BranchIns? || ins.GotoIns?
      modifies this`code, this`patches, this`entries
      ensures Built(r, Emit(values, old(Image()), ins))
    {
      hide PutChar, WithFunctionPtr, WithGlobalIdx, WithLabel;
      WriteChar(OpTag(ins));
      if ins.CallIns? {
        WriteChar(ins.arity);
      }
      var s := LinkStr(values, ins.name);
      if s.Fatal? {
        return Fail(s.msg);
      }
      if ins.CallIns? {
        WriteFunctionPtr(s.value);
      } else if ins.SetGlobalIns? || ins.GetGlobalIns? {
        WriteGlobalIdx(s.value);
      } else {
        WriteLabel(s.value);
      }
      r := Pass;
    }

    /** One round of the first loop of link_program on a method:
        set_method_label, write_frame, then link_ins on each instruction. */
    method LinkMethod(i: int) returns (r: Outcome)
      requires 0 <= i < |values| && values[i].MethodValue?
      modifies this`code, this`patches, this`entries
      ensures Built(r, EmitAll(values, Enter(old(Image()), i, values[i]), values[i].code, |values[i].code|))
    {
      hide Emit, Frame;
      var v := values[i];
      SetMethodLabel(i);
      WriteFrame(v.nargs, v.nlocals);
      ghost var start := Image();
      for j := 0 to |v.code|
        invariant EmitAll(values, start, v.code, j) == Ok(Image())
      {
        r := LinkIns(v.code[j]);
        if r.Fail? {
          EmitAllStops(values, start, v.code, j + 1, |v.code|);
          return;
        }
      }
      r := Pass;
    }

    /** The first loop of link_program: every method's entry, header and
        instructions, in constant order, into an empty buffer. */
    method LinkCode() returns (r: Outcome)
      requires code == [] && patches == [] && entries == []
      modifies this`code, this`patches, this`entries
      ensures Built(r, CodePhase(values, |values|))
    {
      for i := 0 to |values|
        invariant CodePhase(values, i) == Ok(Image())
      {
        if values[i].MethodValue? {
          r := LinkMethod(i);
          if r.Fail? {
            CodePhaseStops(values, i + 1, |values|);
            return;
          }
        }
      }
      r := Pass;
    }

    //============================================================
    // The linker: classes, globals, patches
    //============================================================

    /** One member of make_class: a variable slot numbered `nvars`, or a
        method slot bound to its method's entry. */
    method LinkSlot(vidx: int, nvars: int) returns (r: Result<LSlot>)
      ensures r == SlotOf(values, entries, vidx, nvars)
    {
      var v := GetAt(values, vidx);
      if v.Fatal? {
        return Fatal(v.msg);
      }
      if v.value.SlotValue? {
        var name := LinkStr(values, v.value.name);
        if name.Fatal? {
          return Fatal(name.msg);
        }
        r := Ok(VarSlot(name.value, nvars));
      } else if v.value.MethodValue? {
        var name := LinkStr(values, v.value.name);
        if name.Fatal? {
          return Fatal(name.msg);
        }
        var pos := GetEntry(MethodKey(vidx));
        if pos.Fatal? {
          return Fatal(pos.msg);
        }
        r := Ok(CodeSlot(name.value, CODE_BASE + pos.value));
      } else {
        r := Fatal("Invalid class slot: " + IntString(ValueTag(v.value)));
      }
    }

    /** make_class: the members linked in order, the variables numbered as
        they come; the class goes to the end of the classes vector and its
        index is the result. */
    method MakeClass(members: seq<int>) returns (r: Result<int>)
      modifies this`classes
      ensures var c := VmLink.MakeClass(values, entries, members);
              (r.Ok? <==> c.Ok?) && (r.Fatal? ==> c == Fatal(r.msg) && classes == old(classes))
              && (r.Ok? ==> classes == old(classes) + [Some(c.value)] && r.value == |old(classes)|)
    {
      var nvars := 0;
      var slots: seq<LSlot> := [];
      for i := 0 to |members|
        invariant classes == old(classes)
        invariant ClassSlots(values, entries, members, i) == Ok(slots) && nvars == CountVars(slots)
      {
        var slot := LinkSlot(members[i], nvars);
        if slot.Fatal? {
          ClassSlotsStop(values, entries, members, i + 1, |members|);
          return Fatal(slot.msg);
        }
        assert (slots + [slot.value])[..|slots|] == slots;
        slots := slots + [slot.value];
        if slot.value.VarSlot? {
          nvars := nvars + 1;
        }
      }
      classes := classes + [Some(LClass(nvars, |members|, slots))];
      r := Ok(|classes| - 1);
    }

    /** The second loop of link_program: each class constant is made and
        its tag recorded against its index. */
    method LinkClasses() returns (r: Outcome)
      requires classes == RESERVED
      modifies this`classes, this`entries
      ensures var s := ClassPhase(values, old(entries), |values|);
              (r.Pass? <==> s.Ok?) && (r.Pass? ==> classes == s.value.0 && entries == s.value.1) && (r.Fail? ==> s == Fatal(r.msg))
    {
      hide VmLink.MakeClass;
      for i := 0 to |values|
        invariant ClassPhase(values, old(entries), i) == Ok((classes, entries))
      {
        if values[i].ClassValue? {
          var t := MakeClass(values[i].slots);
          if t.Fatal? {
            ClassPhaseStops(values, old(entries), i + 1, |values|);
            return Fail(t.msg);
          }
          SetClassTag(i, t.value);
        }
      }
      r := Pass;
    }

    /** The third loop of link_program: a variable becomes the next global,
        a method a function entry; any other constant is fatal. */
    method LinkGlobals(slots: seq<int>) returns (r: Outcome)
      requires globals == []
      modifies this`globals, this`entries
      ensures var s := GlobalPhase(values, slots, old(entries), |slots|);
              (r.Pass? <==> s.Ok?) && (r.Pass? ==> globals == s.value.0 && entries == s.value.1) && (r.Fail? ==> s == Fatal(r.msg))
    {
      hide TableGet, LinkStr;
      for i := 0 to |slots|
        invariant GlobalPhase(values, slots, old(entries), i) == Ok((globals, entries))
      {
        var idx := slots[i];
        var v := GetAt(values, idx);
        if v.Fatal? {
          GlobalPhaseStops(values, slots, old(entries), i + 1, |slots|);
          return Fail(v.msg);
        }
        if v.value.SlotValue? || v.value.MethodValue? {
          var name := LinkStr(values, v.value.name);
          if name.Fatal? {
            GlobalPhaseStops(values, slots, old(entries), i + 1, |slots|);
            return Fail(name.msg);
          }
          if v.value.SlotValue? {
            NewGlobal(name.value);
          } else {
            var f := SetFunctionLabel(name.value, idx);
            if f.Fail? {
              GlobalPhaseStops(values, slots, old(entries), i + 1, |slots|);
              return f;
            }
          }
        } else {
          GlobalPhaseStops(values, slots, old(entries), i + 1, |slots|);
          return Fail("Not a global.");
        }
      }
      r := Pass;
    }

    /** One case of the patch loop: the bytes its target resolves to. */
    method ResolvePatch(p: Patch) returns (r: Result<seq<Byte>>)
      ensures r == Resolve(entries, classes, globals, p)
    {
      match p
      case LabelPatch(_, name) =>
        var pos := GetEntry(LabelKey(name));
        if pos.Fatal? {
          return Fatal(pos.msg);
        }
        r := Ok(Bytes64(CODE_BASE + pos.value));
      case FunctionPatch(_, name) =>
        var pos := GetEntry(FunctionKey(name));
        if pos.Fatal? {
          return Fatal(pos.msg);
        }
        r := Ok(Bytes64(CODE_BASE + pos.value));
      case ClassTagPatch(_, cls) =>
        var tag := GetEntry(ClassKey(cls));
        if tag.Fatal? {
          return Fatal(tag.msg);
        }
        r := Ok(Bytes16(tag.value));
      case ClassArityPatch(_, cls) =>
        var tag := GetEntry(ClassKey(cls));
        if tag.Fatal? {
          return Fatal(tag.msg);
        }
        var c := GetAt(classes, Wrap16(tag.value));
        if c.Fatal? {
          return Fatal(c.msg);
        }
        if c.value.None? {
          return Fatal(UNDEFINED);
        }
        r := Ok([c.value.value.nvars % TWO_8]);
      case GlobalIdxPatch(_, name) =>
        var idx := GetGlobalIdx(name);
        if idx.Fatal? {
          return Fatal(idx.msg);
        }
        r := Ok(Bytes16(idx.value));
    }

    /** The last loop of link_program: each placeholder overwritten with
        its resolved target, in order. */
    method RunPatches() returns (r: Outcome)
      modifies this`code
      ensures var s := ApplyPatches(old(code), patches, entries, classes, globals, |patches|);
              (r.Pass? <==> s.Ok?) && (r.Pass? ==> code == s.value) && (r.Fail? ==> s == Fatal(r.msg))
    {
      hide Resolve;
      for i := 0 to |patches|
        invariant ApplyPatches(old(code), patches, entries, classes, globals, i) == Ok(code)
      {
        var b := ResolvePatch(patches[i]);
        if b.Fatal? {
          PatchesStop(old(code), patches, entries, classes, globals, i + 1, |patches|);
          return Fail(b.msg);
        }
        var pos := patches[i].pos;
        if pos < 0 || pos + |b.value| > |code| {
          PatchesStop(old(code), patches, entries, classes, globals, i + 1, |patches|);
          return Fail(UNDEFINED);
        }
        code := code[..pos] + b.value + code[pos + |b.value|..];
      }
      r := Pass;
    }

    /** link_program: the four loops from empty tables, then the entry
        method's address. */
    method LinkProgram(prog: Program) returns (r: Outcome)
      modifies this`code, this`patches, this`entries, this`globals, this`classes, this`values, this`entry
      ensures var s := Link(prog);
              (r.Pass? <==> s.Ok?) && (r.Pass? ==> Loaded() == s.value) && (r.Fail? ==> s == Fatal(r.msg))
    {
      hide CodePhase, ClassPhase, GlobalPhase, ApplyPatches, TableGet;
      code, patches, entries, globals, classes, values := [], [], [], [], RESERVED, prog.values;
      r := LinkCode();
      if r.Fail? {
        return;
      }
      ghost var img := Image();
      r := LinkClasses();
      if r.Fail? {
        return;
      }
      ghost var cls := (classes, entries);
      assert ClassPhase(prog.values, img.entries, |prog.values|) == Ok(cls);
      r := LinkGlobals(prog.slots);
      if r.Fail? {
        return;
      }
      assert GlobalPhase(prog.values, prog.slots, cls.1, |prog.slots|) == Ok((globals, entries));
      r := RunPatches();
      if r.Fail? {
        return;
      }
      assert ApplyPatches(img.code, img.patches, entries, classes, globals, |img.patches|) == Ok(code);
      var e := GetEntry(MethodKey(prog.entry));
      if e.Fatal? {
        return Fail(e.msg);
      }
      entry := CODE_BASE + e.value;
    }

    /** initvm: the registers at the entry, empty stacks, a fresh heap
        holding nullobj and zeroobj, every global null, and the default
        frame. */
    method InitVm()
      modifies this
      ensures State() == Init(Loaded()) && fresh(genv)
      ensures Loaded() == old(Loaded()) && patches == old(patches)
    {
      hide FirstHeap;
      ip, fp, n := entry, 0, 0;
      vstack, fstack := [], [];
      genv := new int[|globals|];
      InitHeap();
      var nul := nullobj;
      ArrayFill(genv, seq(|globals|, _ => nul));
      fstack := fstack + [0] + [0];
    }

    /** init_heap, then alloc_null and alloc_int(0).  The fresh space has
        room for both, so halloc only moves heap_ptr past each record. */
    method InitHeap()
      modifies this`heap, this`nullobj, this`zeroobj
      ensures heap == FirstHeap() && nullobj == SPACE_A && zeroobj == SPACE_A + 16
    {
      heap := Heap(map[], SPACE_A, SPACE_B, SPACE_A, SPACE_A + HEAP_SIZE);
      nullobj := heap.ptr;
      heap := heap.(mem := heap.mem[nullobj := NullCell], ptr := heap.ptr + 16);
      zeroobj := heap.ptr;
      heap := heap.(mem := heap.mem[zeroobj := IntCell(0)], ptr := heap.ptr + 16);
    }

    //============================================================
    // The collector
    //============================================================

    /** link_ptr: the forward of a moved record, or a copy at heap_ptr with
        a forward left behind. */
    method LinkPtr(ref: int) returns (r: Result<int>)
      modifies this
      ensures var s := VmHeap.LinkPtr(classes, old(heap), ref);
              (r.Ok? <==> s.Ok?) && (r.Ok? ==> heap == s.value.0 && r.value == s.value.1) && (r.Fatal? ==> s == Fatal(r.msg))
      ensures State() == old(State()).(heap := heap) && Kept()
    {
      if ref !in heap.mem {
        return Fatal(UNDEFINED);
      }
      var c := heap.mem[ref];
      if c.Forward? {
        return Ok(c.dst);
      }
      var sz := SizeOf(classes, c);
      if sz.Fatal? {
        return Fatal(sz.msg);
      }
      if heap.ptr + sz.value > heap.top {
        return Fatal(UNDEFINED);
      }
      var dst := heap.ptr;
      heap := heap.(mem := heap.mem[dst := c], ptr := heap.ptr + sz.value);
      heap := heap.(mem := heap.mem[ref := Forward(dst)]);
      r := Ok(dst);
    }

    /** The loop of scan_globals, scan_vstack, scan_array and scan_obj:
        words `lo` to `hi - 1` of `ws` replaced, one by one, by what
        link_ptr returns for them. */
    method LinkWords(ws: seq<int>, lo: int, hi: int) returns (r: Result<seq<int>>)
      modifies this
      ensures var s := LinkRange(classes, old(heap), ws, lo, hi);
              (r.Ok? <==> s.Ok?) && (r.Ok? ==> heap == s.value.0 && r.value == s.value.1) && (r.Fatal? ==> s == Fatal(r.msg))
      ensures State() == old(State()).(heap := heap) && Kept()
    {
      var out := ws;
      var i := lo;
      while i < hi
        invariant LinkRange(classes, heap, out, i, hi) == LinkRange(classes, old(heap), ws, lo, hi)
        invariant State() == old(State()).(heap := heap) && Kept()
        decreases hi - i
      {
        if i < 0 || i >= |out| {
          return Fatal("Index out of bounds.");
        }
        var l := LinkPtr(out[i]);
        if l.Fatal? {
          return Fatal(l.msg);
        }
        out := out[i := l.value];
        i := i + 1;
      }
      r := Ok(out);
    }

    /** scan_fstack: from the top frame down, each frame's locals linked,
        the next frame found through the saved frame pointer. */
    method ScanFstack() returns (r: Outcome)
      modifies this
      ensures var s := ScanFrames(classes, old(heap), old(fstack), |old(fstack)|, old(fp));
              (r.Pass? <==> s.Ok?) && (r.Pass? ==> heap == s.value.0 && fstack == s.value.1) && (r.Fail? ==> s == Fatal(r.msg))
      ensures State() == old(State()).(heap := heap, fstack := fstack) && Kept()
    {
      var top := |fstack|;
      var bot := fp;
      while top > 0
        invariant ScanFrames(classes, heap, fstack, top, bot) == ScanFrames(classes, old(heap), old(fstack), |old(fstack)|, old(fp))
        invariant State() == old(State()).(heap := heap, fstack := fstack) && Kept()
        decreases top
      {
        if bot >= top {
          return Fail(UNDEFINED);
        }
        var l := LinkWords(fstack, bot + 2, top);
        if l.Fatal? {
          return Fail(l.msg);
        }
        fstack := l.value;
        if bot + 1 < 0 || bot + 1 >= |fstack| {
          return Fail("Index out of bounds.");
        }
        top, bot := bot, fstack[bot + 1];
      }
      r := Pass;
    }

    /** scan_next: the references of the record at `p` linked, then the
        address just past it. */
    method ScanNext(p: int) returns (r: Result<int>)
      modifies this
      ensures var s := VmHeap.ScanNext(classes, old(heap), p);
              (r.Ok? <==> s.Ok?) && (r.Ok? ==> heap == s.value.0 && r.value == s.value.1) && (r.Fatal? ==> s == Fatal(r.msg))
      ensures State() == old(State()).(heap := heap) && Kept()
    {
      if p !in heap.mem {
        return Fatal(UNDEFINED);
      }
      var c := heap.mem[p];
      if c.ArrayCell? {
        var l := LinkWords(c.items, 0, |c.items|);
        if l.Fatal? {
          return Fatal(l.msg);
        }
        heap := heap.(mem := heap.mem[p := ArrayCell(l.value)]);
      } else if !c.IntCell? && !c.NullCell? {
        if Tag(c) < 0 || Tag(c) >= |classes| {
          return Fatal("Index out of bounds.");
        }
        var k := classes[Tag(c)];
        if k.None? || !c.ObjCell? || |c.slots| < k.value.nvars {
          return Fatal(UNDEFINED);
        }
        var parent := LinkPtr(c.parent);
        if parent.Fatal? {
          return Fatal(parent.msg);
        }
        var l := LinkWords(c.slots, 0, k.value.nvars);
        if l.Fatal? {
          return Fatal(l.msg);
        }
        heap := heap.(mem := heap.mem[p := ObjCell(c.tag, parent.value, l.value)]);
      }
      var sz := SizeOf(classes, heap.mem[p]);
      if sz.Fatal? {
        return Fatal(sz.msg);
      }
      r := Ok(p + sz.value);
    }

    /** The flip at the start of run_gc: the spaces swap and the
        allocation pointer goes to the start of the new active space. */
    method FlipHeap()
      modifies this
      ensures heap == Flip(old(heap))
      ensures State() == old(State()).(heap := heap) && Kept()
    {
      var swap := heap.base;
      heap := heap.(base := heap.other, other := swap);
      heap := heap.(ptr := heap.base, top := heap.base + HEAP_SIZE);
      heap := heap.(mem := map a | a in heap.mem && Outside(heap, a) :: heap.mem[a]);
    }

    /** scan_globals */
    method ScanGlobals() returns (r: Outcome)
      modifies this, genv
      ensures var s := LinkRange(classes, old(heap), old(genv[..]), 0, genv.Length);
              (r.Pass? <==> s.Ok?) && (r.Pass? ==> heap == s.value.0 && genv[..] == s.value.1) && (r.Fail? ==> s == Fatal(r.msg))
      ensures State() == old(State()).(heap := heap, genv := genv[..]) && Kept()
    {
      var g := LinkWords(genv[..], 0, genv.Length);
      if g.Fatal? {
        return Fail(g.msg);
      }
      ArrayFill(genv, g.value);
      r := Pass;
    }

    /** scan_vstack */
    method ScanVstack() returns (r: Outcome)
      modifies this
      ensures var s := LinkRange(classes, old(heap), old(vstack), 0, |old(vstack)|);
              (r.Pass? <==> s.Ok?) && (r.Pass? ==> heap == s.value.0 && vstack == s.value.1) && (r.Fail? ==> s == Fatal(r.msg))
      ensures State() == old(State()).(heap := heap, vstack := vstack) && Kept()
    {
      var v := LinkWords(vstack, 0, |vstack|);
      if v.Fatal? {
        return Fail(v.msg);
      }
      vstack := v.value;
      r := Pass;
    }

    /** The roots of run_gc, after the flip: the globals, the frames, the
        operand stack, then nullobj and zeroobj. */
    method ScanRoots() returns (r: Outcome)
      modifies this, genv
      ensures Follows(r, Roots(classes, old(State())))
      ensures Kept()
    {
      ghost var m := State();
      FlipHeap();
      var g := ScanGlobals();
      if g.Fail? {
        return g;
      }
      var f := ScanFstack();
      if f.Fail? {
        return f;
      }
      var v := ScanVstack();
      if v.Fail? {
        return v;
      }
      assert State() == FlipStacks(classes, m).value;
      var a := LinkPtr(nullobj);
      if a.Fatal? {
        return Fail(a.msg);
      }
      nullobj := a.value;
      var b := LinkPtr(zeroobj);
      if b.Fatal? {
        return Fail(b.msg);
      }
      zeroobj := b.value;
      r := Pass;
    }

    /** The scan loop of run_gc: from the start of the active space, scan
        the next record until the cursor meets heap_ptr. */
    method ScanHeap() returns (r: Outcome)
      requires Within(heap)
      modifies this
      ensures var s := ScanFrom(classes, old(heap), old(heap.base));
              (r.Pass? <==> s.Ok?) && (r.Pass? ==> heap == s.value.0) && (r.Fail? ==> s == Fatal(r.msg))
      ensures State() == old(State()).(heap := heap) && Kept()
    {
      var p := heap.base;
      while p < heap.ptr
        invariant Within(heap)
        invariant ScanFrom(classes, heap, p) == ScanFrom(classes, old(heap), old(heap.base))
        invariant State() == old(State()).(heap := heap) && Kept()
        decreases heap.top - p
      {
        var s := ScanNext(p);
        if s.Fatal? {
          return Fail(s.msg);
        }
        p := s.value;
      }
      r := Pass;
    }

    /** run_gc */
    method RunGc() returns (r: Outcome)
      modifies this, genv
      ensures Follows(r, VmHeap.RunGc(classes, old(State())))
      ensures Kept()
    {
      r := ScanRoots();
      if r.Pass? {
        r := ScanHeap();
      }
    }

    /** halloc: room for `sz` bytes at heap_ptr, after one collection when
        the space is short. */
    method Halloc(sz: int) returns (r: Result<int>)
      modifies this, genv
      ensures var s := VmHeap.Halloc(classes, old(State()), sz);
              (r.Ok? <==> s.Ok?) && (r.Ok? ==> State() == s.value.0 && r.value == s.value.1) && (r.Fatal? ==> s == Fatal(r.msg))
      ensures Kept()
    {
      if heap.ptr + sz > heap.top {
        var g := RunGc();
        if g.Fail? {
          return Fatal(g.msg);
        }
        if heap.ptr + sz > heap.top {
          return Fatal(OUT_OF_MEMORY);
        }
      }
      r := Ok(heap.ptr);
      heap := heap.(ptr := heap.ptr + sz);
    }

    //============================================================
    // The interpreter: readers and the operand stack
    //============================================================

    /** A reader's result `r` and the ip it leaves are what `s` gives. */
    predicate ReadAs(r: Result<int>, s: Result<(int, int)>)
      reads this
    {
      (r.Ok? <==> s.Ok?) && (r.Ok? ==> r.value == s.value.0 && ip == s.value.1) && (r.Fatal? ==> s == Fatal(r.msg))
    }

    /** next_char */
    method ReadChar() returns (r: Result<int>)
      modifies this
      ensures ReadAs(r, NextChar(code, old(ip)))
      ensures State() == old(State()).(ip := ip) && Kept()
    {
      if !InCode(code, ip, 1) {
        return Fatal(UNDEFINED);
      }
      r := Ok(code[ip - CODE_BASE]);
      ip := ip + 1;
    }

    /** next_short */
    method ReadShort() returns (r: Result<int>)
      modifies this
      ensures ReadAs(r, NextShort(code, old(ip)))
      ensures State() == old(State()).(ip := ip) && Kept()
    {
      ip := AlignUp(ip, 2);
      if !InCode(code, ip, 2) {
        return Fatal(UNDEFINED);
      }
      var o := ip - CODE_BASE;
      r := Ok(LE16(code[o], code[o + 1]));
      ip := ip + 2;
    }

    /** next_int */
    method ReadInt() returns (r: Result<int>)
      modifies this
      ensures ReadAs(r, NextInt(code, old(ip)))
      ensures State() == old(State()).(ip := ip) && Kept()
    {
      ip := AlignUp(ip, 4);
      if !InCode(code, ip, 4) {
        return Fatal(UNDEFINED);
      }
      var o := ip - CODE_BASE;
      r := Ok(LE32(code[o], code[o + 1], code[o + 2], code[o + 3]));
      ip := ip + 4;
    }

    /** next_ptr */
    method ReadPtr() returns (r: Result<int>)
      modifies this
      ensures ReadAs(r, NextPtr(code, old(ip)))
      ensures State() == old(State()).(ip := ip) && Kept()
    {
      ip := AlignUp(ip, 8);
      if !InCode(code, ip, 8) {
        return Fatal(UNDEFINED);
      }
      var o := ip - CODE_BASE;
      r := Ok(LE64(code[o..o + 8]));
      ip := ip + 8;
    }

    /** vector_pop on the operand stack. */
    method Pop() returns (r: Result<int>)
      modifies this`vstack
      ensures var s := PopLast(old(vstack));
              (r.Ok? <==> s.Ok?) && (r.Ok? ==> r.value == s.value.0 && vstack == s.value.1) && (r.Fatal? ==> s == Fatal(r.msg))
      ensures State() == old(State()).(vstack := vstack) && Kept()
    {
      if |vstack| == 0 {
        return Fatal("Pop from empty vector.");
      }
      r := Ok(vstack[|vstack| - 1]);
      vstack := vstack[..|vstack| - 1];
    }

    /** `k` pops, the first popped last in the result. */
    method PopMany(k: nat) returns (r: Result<seq<int>>)
      modifies this`vstack
      ensures var s := PopN(old(vstack), k);
              (r.Ok? <==> s.Ok?) && (r.Ok? ==> r.value == s.value.0 && vstack == s.value.1) && (r.Fatal? ==> s == Fatal(r.msg))
      ensures State() == old(State()).(vstack := vstack) && Kept()
    {
      var out := [];
      var i := 0;
      while i < k
        invariant 0 <= i <= k && |out| == i && vstack + out == old(vstack)
        invariant State() == old(State()).(vstack := vstack) && Kept()
      {
        var p := Pop();
        if p.Fatal? {
          return Fatal(p.msg);
        }
        out := [p.value] + out;
        i := i + 1;
      }
      r := Ok(out);
      assert vstack == old(vstack)[..|old(vstack)| - k] && out == old(vstack)[|old(vstack)| - k..];
    }

    //============================================================
    // The interpreter: instructions
    //============================================================

    /** push_int: alloc_int, then the push. */
    method PushIntObj(i: int) returns (r: Outcome)
      modifies this, genv
      ensures Follows(r, PushInt(classes, old(State()), i)) && Kept()
    {
      var a := Halloc(16);
      if a.Fatal? {
        return Fail(a.msg);
      }
      heap := heap.(mem := heap.mem[a.value := IntCell(i)]);
      vstack := vstack + [a.value];
      r := Pass;
    }

    /** INT_INS */
    method DoInt() returns (r: Outcome)
      modifies this, genv
      ensures Follows(r, ExecInt(Loaded(), old(State()))) && Kept()
    {
      var i := ReadInt();
      if i.Fatal? {
        return Fail(i.msg);
      }
      r := PushIntObj(i.value);
    }

    /** PRINTF_INS: print_format's reads, then the pops and nullobj. */
    method DoPrintf() returns (r: Outcome)
      modifies this
      ensures Follows(r, ExecPrintf(Loaded(), old(State()))) && Kept()
    {
      hide AstEval.Tildes, CString, PopN, LinkStr, NextChar, NextPtr;
      var a := ReadChar();
      if a.Fatal? {
        return Fail(a.msg);
      }
      var p := ReadPtr();
      if p.Fatal? {
        return Fail(p.msg);
      }
      var fmt := LinkStr(values, p.value);
      if fmt.Fatal? {
        return Fail(fmt.msg);
      }
      var k := AstEval.Tildes(CString(fmt.value));
      if k > 0 && (a.value > |vstack| || k > a.value) {
        return Fail("Index out of bounds.");
      }
      var q := PopMany(a.value);
      if q.Fatal? {
        return Fail(q.msg);
      }
      vstack := vstack + [nullobj];
      r := Pass;
    }

    /** ARRAY_INS */
    method DoArray() returns (r: Outcome)
      modifies this, genv
      ensures Follows(r, ExecArray(Loaded(), old(State()))) && Kept()
    {
      hide VmHeap.Halloc, VmHeap.RunGc, FillArray;
      var lr := GetAt(vstack, |vstack| - 2);
      if lr.Fatal? {
        return Fail(lr.msg);
      }
      var lc := Deref(heap, lr.value);
      if lc.Fatal? {
        return Fail(lc.msg);
      }
      if !lc.value.IntCell? {
        return Fail(NOT_AN_INTEGER);
      }
      var len := lc.value.value;
      if len < 0 {
        return Fail(UNDEFINED);
      }
      var a := Halloc(16 + 8 * len);
      if a.Fatal? {
        return Fail(a.msg);
      }
      r := FinishArray(a.value, len);
    }

    /** The end of ARRAY_INS, after alloc_empty_array. */
    method FinishArray(a: int, len: nat) returns (r: Outcome)
      modifies this`vstack, this`heap
      ensures Follows(r, FillArray(old(State()), a, len)) && Kept()
    {
      var init := Pop();
      if init.Fatal? {
        return Fail(init.msg);
      }
      var l := Pop();
      if l.Fatal? {
        return Fail(l.msg);
      }
      heap := heap.(mem := heap.mem[a := ArrayCell(Repeat(len, init.value))]);
      vstack := vstack + [a];
      r := Pass;
    }

    /** OBJECT_INS */
    method DoObject() returns (r: Outcome)
      modifies this, genv
      ensures Follows(r, ExecObject(Loaded(), old(State()))) && Kept()
    {
      hide VmHeap.Halloc, VmHeap.RunGc, PlaceObject;
      var a := ReadChar();
      if a.Fatal? {
        return Fail(a.msg);
      }
      var c := ReadShort();
      if c.Fatal? {
        return Fail(c.msg);
      }
      if c.value < 3 {
        return Fail(UNDEFINED);
      }
      var h := Halloc(16 + 8 * a.value);
      if h.Fatal? {
        return Fail(h.msg);
      }
      r := FinishObject(h.value, c.value, a.value);
    }

    /** The end of OBJECT_INS, after alloc_object. */
    method FinishObject(o: int, tag: int, arity: nat) returns (r: Outcome)
      modifies this`vstack, this`heap
      ensures Follows(r, PlaceObject(old(State()), o, tag, arity)) && Kept()
    {
      var sl := PopMany(arity);
      if sl.Fatal? {
        return Fail(sl.msg);
      }
      var pp := Pop();
      if pp.Fatal? {
        return Fail(pp.msg);
      }
      r := AttachObject(o, tag, pp.value, sl.value);
    }

    /** ensure_parent, the fields of the new object, and the push. */
    method AttachObject(o: int, tag: int, parent: int, slots: seq<int>) returns (r: Outcome)
      modifies this`vstack, this`heap
      ensures Follows(r, Attach(old(State()), o, tag, parent, slots)) && Kept()
    {
      var pc := Deref(heap, parent);
      if pc.Fatal? {
        return Fail(pc.msg);
      }
      if pc.value.IntCell? {
        return Fail(INT_PARENT);
      } else if pc.value.ArrayCell? {
        return Fail(ARRAY_PARENT);
      }
      heap := heap.(mem := heap.mem[o := ObjCell(tag, parent, slots)]);
      vstack := vstack + [o];
      r := Pass;
    }

    /** SLOT_INS: lookup_varslot, then the read from the object whose
        class holds the slot. */
    method DoSlot() returns (r: Outcome)
      modifies this
      ensures Follows(r, ExecSlot(Loaded(), old(State()))) && Kept()
    {
      var p := ReadPtr();
      if p.Fatal? {
        return Fail(p.msg);
      }
      var name := LinkStr(values, p.value);
      if name.Fatal? {
        return Fail(name.msg);
      }
      var o := Pop();
      if o.Fatal? {
        return Fail(o.msg);
      }
      var s := LookupVarSlot(classes, heap, o.value, name.value);
      if s.Fatal? {
        return Fail(s.msg);
      }
      var v := SlotRead(heap, s.value.0, s.value.1);
      if v.Fatal? {
        return Fail(v.msg);
      }
      vstack := vstack + [v.value];
      r := Pass;
    }

    /** SET_SLOT_INS: lookup_varslot, then the store into the object whose
        class holds the slot; the value is pushed back. */
    method DoSetSlot() returns (r: Outcome)
      modifies this
      ensures Follows(r, ExecSetSlot(Loaded(), old(State()))) && Kept()
    {
      hide SetSlotValue;
      var p := ReadPtr();
      if p.Fatal? {
        return Fail(p.msg);
      }
      var name := LinkStr(values, p.value);
      if name.Fatal? {
        return Fail(name.msg);
      }
      var x := Pop();
      if x.Fatal? {
        return Fail(x.msg);
      }
      var o := Pop();
      if o.Fatal? {
        return Fail(o.msg);
      }
      assert ExecSetSlot(Loaded(), old(State())) == SetAndPush(classes, State(), o.value, name.value, x.value);
      r := SetAndPushCall(o.value, name.value, x.value);
    }

    /** The end of SET_SLOT_INS: the store, then the value pushed back. */
    method SetAndPushCall(obj: int, name: string, x: int) returns (r: Outcome)
      modifies this
      ensures Follows(r, SetAndPush(classes, old(State()), obj, name, x)) && Kept()
    {
      var w := SetSlotNamed(obj, name, x);
      if w.Fail? {
        return w;
      }
      vstack := vstack + [x];
      r := Pass;
    }

    /** lookup_varslot, then the store into the object whose class holds
        the slot. */
    method SetSlotNamed(obj: int, name: string, x: int) returns (r: Outcome)
      modifies this`heap
      ensures Follows(r, SetSlotValue(classes, old(State()), obj, name, x)) && Kept()
    {
      hide LookupSlot, SlotWrite;
      var s := LookupVarSlot(classes, heap, obj, name);
      if s.Fatal? {
        return Fail(s.msg);
      }
      r := StoreSlot(s.value.0, s.value.1, x);
    }

    /** The store `o->slots[idx] = x`. */
    method StoreSlot(obj: int, idx: int, x: int) returns (r: Outcome)
      modifies this`heap
      ensures Follows(r, SlotWrite(old(State()), obj, idx, x)) && Kept()
    {
      if obj !in heap.mem {
        return Fail(UNDEFINED);
      }
      var c := heap.mem[obj];
      if !c.ObjCell? || idx < 0 || idx >= |c.slots| {
        return Fail(UNDEFINED);
      }
      heap := heap.(mem := heap.mem[obj := c.(slots := c.slots[idx := x])]);
      r := Pass;
    }

    /** The call sequence of CALL_SLOT_INS and CALL_INS: the return
        address and the caller's fp pushed on the frame stack, fp at them,
        ip at the target. */
    method CallTo(target: int)
      modifies this
      ensures State() == Call(old(State()), target) && Kept()
    {
      var newfp := |fstack|;
      fstack := fstack + [ip];
      fstack := fstack + [fp];
      fp := newfp;
      ip := target;
    }

    /** CALL_SLOT_INS: the receiver `n` operands deep picks the primitive
        or the method. */
    method DoCallSlot() returns (r: Outcome)
      modifies this, genv
      ensures Follows(r, ExecCallSlot(Loaded(), old(State()))) && Kept()
    {
      hide CallIntSlot, CallArraySlot, LookupMethod, LookupSlot, Call, NextChar, NextPtr, LinkStr;
      var a := ReadChar();
      if a.Fatal? {
        return Fail(a.msg);
      }
      n := a.value;
      var p := ReadPtr();
      if p.Fatal? {
        return Fail(p.msg);
      }
      var name := LinkStr(values, p.value);
      if name.Fatal? {
        return Fail(name.msg);
      }
      var obj := GetAt(vstack, |vstack| - n);
      if obj.Fatal? {
        return Fail(obj.msg);
      }
      var c := Deref(heap, obj.value);
      if c.Fatal? {
        return Fail(c.msg);
      }
      if c.value.IntCell? {
        r := IntSlotCall(name.value);
      } else if c.value.ArrayCell? {
        r := ArraySlotCall(name.value);
      } else if c.value.NullCell? {
        r := Fail("No slot named " + name.value + " for Null.");
      } else {
        var code := LookupMethod(classes, heap, obj.value, name.value);
        if code.Fatal? {
          return Fail(code.msg);
        }
        CallTo(code.value);
        r := Pass;
      }
    }

    /** call_int_slot */
    method IntSlotCall(name: string) returns (r: Outcome)
      modifies this, genv
      ensures Follows(r, CallIntSlot(Loaded(), old(State()), name)) && Kept()
    {
      if n != 2 {
        return Fail(Arity(2, n));
      }
      var py := Pop();
      if py.Fatal? {
        return Fail(py.msg);
      }
      var px := Pop();
      if px.Fatal? {
        return Fail(px.msg);
      }
      assert CallIntSlot(Loaded(), old(State()), name) == IntApply(classes, State(), name, px.value, py.value);
      r := IntApplyCall(name, px.value, py.value);
    }

    /** The rest of call_int_slot, once its operands are popped. */
    method IntApplyCall(name: string, x: int, y: int) returns (r: Outcome)
      modifies this, genv
      ensures Follows(r, IntApply(classes, old(State()), name, x, y)) && Kept()
    {
      var cy := Deref(heap, y);
      if cy.Fatal? {
        return Fail(cy.msg);
      }
      var cx := Deref(heap, x);
      if cx.Fatal? {
        return Fail(cx.msg);
      }
      if !cy.value.IntCell? {
        return Fail(NOT_AN_INTEGER);
      }
      if !cx.value.IntCell? {
        return Fail(UNDEFINED);
      }
      if !AstEval.IsIntSlot(name) {
        return Fail("No slot named " + name + " for Int.");
      }
      var v := AstEval.IntOp(name, cx.value.value, cy.value.value);
      if v.Fatal? {
        return Fail(v.msg);
      }
      match v.value
      case Bool(b) =>
        vstack := vstack + [if b then zeroobj else nullobj];
        r := Pass;
      case Int(i) =>
        r := PushIntObj(i);
    }

    /** call_array_slot: "get", "set" and "length". */
    method ArraySlotCall(name: string) returns (r: Outcome)
      modifies this, genv
      ensures Follows(r, CallArraySlot(Loaded(), old(State()), name)) && Kept()
    {
      var s := CString(name);
      if s == "get" {
        r := ArrayGetCall(name);
      } else if s == "set" {
        r := ArraySetCall();
      } else if s == "length" {
        r := ArrayLengthCall(name);
      } else {
        r := Fail("No slot named " + name + " for Array.");
      }
    }

    /** The "get" case of call_array_slot. */
    method ArrayGetCall(name: string) returns (r: Outcome)
      requires CString(name) == "get"
      modifies this
      ensures Follows(r, CallArraySlot(Loaded(), old(State()), name)) && Kept()
    {
      if n != 2 {
        return Fail(Arity(2, n));
      }
      var pi := Pop();
      if pi.Fatal? {
        return Fail(pi.msg);
      }
      var pa := Pop();
      if pa.Fatal? {
        return Fail(pa.msg);
      }
      var ci := Deref(heap, pi.value);
      if ci.Fatal? {
        return Fail(ci.msg);
      }
      var ca := Deref(heap, pa.value);
      if ca.Fatal? {
        return Fail(ca.msg);
      }
      var k := EnsureIndex(ci.value, ca.value);
      if k.Fatal? {
        return Fail(k.msg);
      }
      vstack := vstack + [ca.value.items[k.value]];
      r := Pass;
    }

    /** The "set" case of call_array_slot. */
    method ArraySetCall() returns (r: Outcome)
      modifies this`vstack, this`heap
      ensures Follows(r, ArraySet(old(State()))) && Kept()
    {
      if n != 3 {
        return Fail(Arity(3, n));
      }
      var pv := Pop();
      if pv.Fatal? {
        return Fail(pv.msg);
      }
      var pi := Pop();
      if pi.Fatal? {
        return Fail(pi.msg);
      }
      var pa := Pop();
      if pa.Fatal? {
        return Fail(pa.msg);
      }
      assert ArraySet(old(State())) == SetElement(State(), pa.value, pi.value, pv.value);
      hide ArraySet, SetElement, PopLast;
      r := StoreElement(pa.value, pi.value, pv.value);
    }

    /** The rest of the "set" case, once its operands are popped. */
    method StoreElement(a: int, i: int, v: int) returns (r: Outcome)
      modifies this`vstack, this`heap
      ensures Follows(r, SetElement(old(State()), a, i, v)) && Kept()
    {
      var ci := Deref(heap, i);
      if ci.Fatal? {
        return Fail(ci.msg);
      }
      var ca := Deref(heap, a);
      if ca.Fatal? {
        return Fail(ca.msg);
      }
      var k := EnsureIndex(ci.value, ca.value);
      if k.Fatal? {
        return Fail(k.msg);
      }
      heap := heap.(mem := heap.mem[a := ArrayCell(ca.value.items[k.value := v])]);
      vstack := vstack + [nullobj];
      r := Pass;
    }

    /** The "length" case of call_array_slot. */
    method ArrayLengthCall(name: string) returns (r: Outcome)
      requires CString(name) == "length"
      modifies this, genv
      ensures Follows(r, CallArraySlot(Loaded(), old(State()), name)) && Kept()
    {
      if n != 1 {
        return Fail(Arity(1, n));
      }
      var pa := Pop();
      if pa.Fatal? {
        return Fail(pa.msg);
      }
      var ca := Deref(heap, pa.value);
      if ca.Fatal? {
        return Fail(ca.msg);
      }
      if !ca.value.ArrayCell? {
        return Fail(UNDEFINED);
      }
      r := PushIntObj(|ca.value.items|);
    }

    /** CALL_INS */
    method DoCall() returns (r: Outcome)
      modifies this
      ensures Follows(r, ExecCall(Loaded(), old(State()))) && Kept()
    {
      var a := ReadChar();
      if a.Fatal? {
        return Fail(a.msg);
      }
      n := a.value;
      var p := ReadPtr();
      if p.Fatal? {
        return Fail(p.msg);
      }
      CallTo(p.value);
      r := Pass;
    }

    /** vector_set on the frame stack. */
    method SetFrameWord(at: int, x: int) returns (r: Outcome)
      modifies this
      ensures var s := SetAt(old(fstack), at, x);
              (r.Pass? <==> s.Ok?) && (r.Pass? ==> fstack == s.value) && (r.Fail? ==> s == Fatal(r.msg))
      ensures State() == old(State()).(fstack := fstack) && Kept()
    {
      if at < 0 || at > |fstack| {
        return Fail("Index out of bounds.");
      }
      if at == |fstack| {
        fstack := fstack + [x];
      } else {
        fstack := fstack[at := x];
      }
      r := Pass;
    }

    /** vector_set_length on the frame stack, padding with nullobj. */
    method SetFrameLength(len: int) returns (r: Outcome)
      modifies this
      ensures var s := SetLength(old(fstack), len, nullobj);
              (r.Pass? <==> s.Ok?) && (r.Pass? ==> fstack == s.value) && (r.Fail? ==> s == Fatal(r.msg))
      ensures State() == old(State()).(fstack := fstack) && Kept()
    {
      if len < 0 {
        return Fail("Negative length given to vector.");
      }
      var pad := nullobj;
      if len <= |fstack| {
        fstack := fstack[..len];
      } else {
        fstack := fstack + seq(len - |fstack|, _ => pad);
      }
      r := Pass;
    }

    /** SET_LOCAL_INS */
    method DoSetLocal() returns (r: Outcome)
      modifies this
      ensures Follows(r, ExecSetLocal(Loaded(), old(State()))) && Kept()
    {
      var i := ReadShort();
      if i.Fatal? {
        return Fail(i.msg);
      }
      if |vstack| == 0 {
        return Fail("Peek from empty vector.");
      }
      r := SetFrameWord(fp + 2 + i.value, vstack[|vstack| - 1]);
    }

    /** GET_LOCAL_INS */
    method DoGetLocal() returns (r: Outcome)
      modifies this
      ensures Follows(r, ExecGetLocal(Loaded(), old(State()))) && Kept()
    {
      var i := ReadShort();
      if i.Fatal? {
        return Fail(i.msg);
      }
      var v := GetAt(fstack, fp + 2 + i.value);
      if v.Fatal? {
        return Fail(v.msg);
      }
      vstack := vstack + [v.value];
      r := Pass;
    }

    /** SET_GLOBAL_INS: a store into genv. */
    method DoSetGlobal() returns (r: Outcome)
      modifies this, genv
      ensures Follows(r, ExecSetGlobal(Loaded(), old(State()))) && Kept()
    {
      var i := ReadShort();
      if i.Fatal? {
        return Fail(i.msg);
      }
      if |vstack| == 0 {
        return Fail("Peek from empty vector.");
      }
      if i.value >= genv.Length {
        return Fail(UNDEFINED);
      }
      genv[i.value] := vstack[|vstack| - 1];
      r := Pass;
    }

    /** GET_GLOBAL_INS */
    method DoGetGlobal() returns (r: Outcome)
      modifies this
      ensures Follows(r, ExecGetGlobal(Loaded(), old(State()))) && Kept()
    {
      var i := ReadShort();
      if i.Fatal? {
        return Fail(i.msg);
      }
      if i.value >= genv.Length {
        return Fail(UNDEFINED);
      }
      vstack := vstack + [genv[i.value]];
      r := Pass;
    }

    /** BRANCH_INS: a jump unless the popped operand is Null. */
    method DoBranch() returns (r: Outcome)
      modifies this
      ensures Follows(r, ExecBranch(Loaded(), old(State()))) && Kept()
    {
      var p := ReadPtr();
      if p.Fatal? {
        return Fail(p.msg);
      }
      var o := Pop();
      if o.Fatal? {
        return Fail(o.msg);
      }
      var c := Deref(heap, o.value);
      if c.Fatal? {
        return Fail(c.msg);
      }
      if !c.value.NullCell? {
        ip := p.value;
      }
      r := Pass;
    }

    /** GOTO_INS */
    method DoGoto() returns (r: Outcome)
      modifies this
      ensures Follows(r, ExecGoto(Loaded(), old(State()))) && Kept()
    {
      var p := ReadPtr();
      if p.Fatal? {
        return Fail(p.msg);
      }
      ip := p.value;
      r := Pass;
    }

    /** RETURN_INS */
    method DoReturn() returns (r: Outcome)
      modifies this
      ensures Follows(r, ExecReturn(Loaded(), old(State()))) && Kept()
    {
      var oldfp := GetAt(fstack, fp + 1);
      if oldfp.Fatal? {
        return Fail(oldfp.msg);
      }
      var rip := GetAt(fstack, fp);
      if rip.Fatal? {
        return Fail(rip.msg);
      }
      ip := rip.value;
      var s := SetFrameLength(fp);
      fp := oldfp.value;
      r := Pass;
    }

    /** DROP_INS */
    method DoDrop() returns (r: Outcome)
      modifies this
      ensures Follows(r, ExecDrop(Loaded(), old(State()))) && Kept()
    {
      var o := Pop();
      if o.Fatal? {
        return Fail(o.msg);
      }
      r := Pass;
    }

    /** FRAME_INS: the arity checked, the frame sized, then the arguments
        popped into locals `n - 1` down to 0. */
    method DoFrame() returns (r: Outcome)
      modifies this
      ensures Follows(r, ExecFrame(Loaded(), old(State()))) && Kept()
    {
      hide PopLocals;
      var a := ReadChar();
      if a.Fatal? {
        return Fail(a.msg);
      }
      var b := ReadShort();
      if b.Fatal? {
        return Fail(b.msg);
      }
      if n != a.value {
        return Fail(Arity(a.value, n));
      }
      var l := SetFrameLength(fp + 2 + a.value + b.value);
      if l.Fail? {
        return l;
      }
      r := PopArgs(n);
    }

    /** The loop of FRAME_INS: locals `i - 1` down to 0 each set to a
        popped operand. */
    method PopArgs(i: int) returns (r: Outcome)
      modifies this
      ensures var s := PopLocals(old(vstack), old(fstack), fp, i);
              (r.Pass? <==> s.Ok?) && (r.Pass? ==> vstack == s.value.0 && fstack == s.value.1) && (r.Fail? ==> s == Fatal(r.msg))
      ensures State() == old(State()).(vstack := vstack, fstack := fstack) && Kept()
    {
      var k := i;
      while k > 0
        invariant PopLocals(vstack, fstack, fp, k) == PopLocals(old(vstack), old(fstack), fp, i)
        invariant State() == old(State()).(vstack := vstack, fstack := fstack) && Kept()
        decreases k
      {
        var p := Pop();
        if p.Fatal? {
          return Fail(p.msg);
        }
        var s := SetFrameWord(fp + 2 + k - 1, p.value);
        if s.Fail? {
          return s;
        }
        k := k - 1;
      }
      r := Pass;
    }

    //============================================================
    // The interpreter: runvm
    //============================================================

    /** One round of runvm's loop: the tag, then its case. */
    method StepOnce() returns (r: Outcome)
      modifies this, genv
      ensures Follows(r, Step(Loaded(), old(State()))) && Kept()
    {
      hide ExecInt, ExecPrintf, ExecArray, ExecObject, ExecSlot, ExecSetSlot, ExecCallSlot, ExecCall, ExecSetLocal;
      hide ExecGetLocal, ExecSetGlobal, ExecGetGlobal, ExecBranch, ExecGoto, ExecReturn, ExecDrop, ExecFrame;
      var t := ReadChar();
      if t.Fatal? {
        return Fail(t.msg);
      }
      var op := t.value;
      if op == INT_INS {
        r := DoInt();
      } else if op == NULL_INS {
        vstack := vstack + [nullobj];
        r := Pass;
      } else if op == PRINTF_INS {
        r := DoPrintf();
      } else if op == ARRAY_INS {
        r := DoArray();
      } else if op == OBJECT_INS {
        r := DoObject();
      } else if op == SLOT_INS {
        r := DoSlot();
      } else if op == SET_SLOT_INS {
        r := DoSetSlot();
      } else if op == CALL_SLOT_INS {
        r := DoCallSlot();
      } else if op == CALL_INS {
        r := DoCall();
      } else if op == SET_LOCAL_INS {
        r := DoSetLocal();
      } else if op == GET_LOCAL_INS {
        r := DoGetLocal();
      } else if op == SET_GLOBAL_INS {
        r := DoSetGlobal();
      } else if op == GET_GLOBAL_INS {
        r := DoGetGlobal();
      } else if op == BRANCH_INS {
        r := DoBranch();
      } else if op == GOTO_INS {
        r := DoGoto();
      } else if op == RETURN_INS {
        r := DoReturn();
      } else if op == DROP_INS {
        r := DoDrop();
      } else if op == FRAME_INS {
        r := DoFrame();
      } else {
        r := Fail("Unknown tag: " + IntString(Signed8(op)));
      }
    }

    /** runvm: rounds until ip is the null pointer, at most `fuel` of
        them. */
    method RunVm(fuel: nat) returns (r: Outcome)
      modifies this, genv
      ensures Follows(r, Run(Loaded(), old(State()), fuel)) && Kept()
    {
      hide Step;
      var f := fuel;
      while ip != 0
        invariant Run(Loaded(), State(), f) == Run(Loaded(), old(State()), fuel)
        invariant Kept()
        decreases f
      {
        if f == 0 {
          return Fail(AstEval.OUT_OF_FUEL);
        }
        var s := StepOnce();
        if s.Fail? {
          return s;
        }
        f := f - 1;
      }
      r := Pass;
    }
  }

  /** The words of `ws` copied into `a`, one by one. */
  method ArrayFill(a: array<int>, ws: seq<int>)
    requires a.Length == |ws|
    modifies a
    ensures a[..] == ws
  {
    var i := 0;
    while i < a.Length
      invariant 0 <= i <= a.Length && a[..i] == ws[..i]
    {
      a[i] := ws[i];
      i := i + 1;
    }
  }
}
