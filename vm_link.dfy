/** The linker of the virtual machine (`link_program` and its helpers).

    The linker lays the instructions of every method into the code
    buffer, records labels, method starts, functions and class tags in a
    table, and leaves a zero placeholder plus a patch for every reference
    whose target is not known yet.  A final pass writes each resolved
    target over its placeholder.

    The pure functions give the linker's state after each step; the
    `Vm` class of module `VmMachine` holds the globals of the C code and
    its linker methods are proved to follow those functions.  Pointers
    to strings in the code are the index of the string in the constant
    pool; code pointers are `CODE_BASE` plus an offset. */
module VmLink {
  import opened Wrappers
  import opened Bytes
  import opened Utils
  import opened Bytecode
  import opened VmCode

  //============================================================
  // Patches and tables
  //============================================================

  datatype Patch =
    | LabelPatch(pos: int, name: string)
    | FunctionPatch(pos: int, name: string)
    | ClassTagPatch(pos: int, cls: int)
    | ClassArityPatch(pos: int, cls: int)
    | GlobalIdxPatch(pos: int, name: string)

  /** The size of a patch's placeholder: a pointer, a short or a char. */
  function Width(p: Patch): nat
  {
    match p
    case LabelPatch(_, _) => 8
    case FunctionPatch(_, _) => 8
    case ClassTagPatch(_, _) => 2
    case ClassArityPatch(_, _) => 1
    case GlobalIdxPatch(_, _) => 2
  }

  /** `k` lies in the placeholder of `p`. */
  predicate Covers(p: Patch, k: int)
  {
    p.pos <= k < p.pos + Width(p)
  }

  /** The placeholders lie inside a buffer of `n` bytes, each aligned to
      its width, in the order of the patches, without overlapping. */
  predicate Laid(ps: seq<Patch>, n: int)
  {
    (forall i :: 0 <= i < |ps| ==> 0 <= ps[i].pos && ps[i].pos + Width(ps[i]) <= n && ps[i].pos % Width(ps[i]) == 0)
    && (forall i, j :: 0 <= i < j < |ps| ==> ps[i].pos + Width(ps[i]) <= ps[j].pos)
  }

  datatype Entry =
    | LabelEntry(name: string, codepos: int)
    | MethodEntry(idx: int, codepos: int)
    | FunctionEntry(name: string, codepos: int)
    | ClassEntry(idx: int, cls: int)

  /** What get_label, get_method_pos, get_function_label and
      get_class_tag search the table for. */
  datatype Key = LabelKey(name: string) | MethodKey(idx: int) | FunctionKey(name: string) | ClassKey(idx: int)

  predicate Answers(e: Entry, k: Key)
  {
    match k
    case LabelKey(n) => e.LabelEntry? && Same(e.name, n)
    case MethodKey(i) => e.MethodEntry? && e.idx == i
    case FunctionKey(n) => e.FunctionEntry? && Same(e.name, n)
    case ClassKey(i) => e.ClassEntry? && e.idx == i
  }

  function Payload(e: Entry): int
  {
    if e.ClassEntry? then e.cls else e.codepos
  }

  /** The first entry at or after `i` that answers `k`. */
  function FindFrom(entries: seq<Entry>, k: Key, i: nat): (r: Option<int>)
    requires i <= |entries|
    ensures r.None? <==> forall j :: i <= j < |entries| ==> !Answers(entries[j], k)
    ensures r.Some? ==> exists j :: i <= j < |entries| && Answers(entries[j], k) && Payload(entries[j]) == r.value
                                   && forall l :: i <= l < j ==> !Answers(entries[l], k)
    decreases |entries| - i
  {
    if i == |entries| then None
    else if Answers(entries[i], k) then Some(Payload(entries[i]))
    else FindFrom(entries, k, i + 1)
  }

  /** The diagnostic of a search that finds nothing. */
  function Missing(k: Key): string
  {
    match k
    case LabelKey(n) => "No label with name " + n + "."
    case MethodKey(i) => "No method with index " + IntString(i) + "."
    case FunctionKey(n) => "No function with name " + n + "."
    case ClassKey(i) => "No class with index " + IntString(i) + "."
  }

  /** A table search: the payload of the first answering entry. */
  function TableGet(entries: seq<Entry>, k: Key): Result<int>
  {
    match FindFrom(entries, k, 0)
    case Some(v) => Ok(v)
    case None => Fatal(Missing(k))
  }

  lemma NotFound(entries: seq<Entry>, k: Key, i: nat)
    requires i <= |entries| && forall j :: i <= j < |entries| ==> !Answers(entries[j], k)
    ensures FindFrom(entries, k, i) == None
  {
  }

  lemma FoundHere(entries: seq<Entry>, k: Key, i: nat)
    requires i < |entries| && Answers(entries[i], k)
    ensures FindFrom(entries, k, i) == Some(Payload(entries[i]))
  {
  }

  /** Entries added later never hide an earlier answer. */
  lemma {:induction false} FindAppend(entries: seq<Entry>, more: seq<Entry>, k: Key, i: nat)
    requires i <= |entries|
    ensures FindFrom(entries + more, k, i)
      == if FindFrom(entries, k, i).Some? then FindFrom(entries, k, i) else FindFrom(entries + more, k, |entries|)
    decreases |entries| - i
  {
    if i < |entries| {
      assert (entries + more)[i] == entries[i];
      FindAppend(entries, more, k, i + 1);
    }
  }

  /** get_global_idx: the first global of that name, compared as strcmp
      compares. */
  function GlobalFrom(globals: seq<string>, name: string, i: nat): (r: Option<int>)
    requires i <= |globals|
    ensures r.None? <==> forall j :: i <= j < |globals| ==> !Same(globals[j], name)
    ensures r.Some? ==> i <= r.value < |globals| && Same(globals[r.value], name)
                        && forall j :: i <= j < r.value ==> !Same(globals[j], name)
    decreases |globals| - i
  {
    if i == |globals| then None
    else if Same(globals[i], name) then Some(i)
    else GlobalFrom(globals, name, i + 1)
  }

  function GlobalIdx(globals: seq<string>, name: string): Result<int>
  {
    match GlobalFrom(globals, name, 0)
    case Some(i) => Ok(i)
    case None => Fatal("No global with name " + name + ".")
  }

  /** link_str: the text of a string constant.  The C code casts whatever
      constant sits at that index; a constant that is not a string is
      undefined there. */
  function LinkStr(values: seq<Value>, idx: int): (r: Result<string>)
    ensures r.Ok? <==> 0 <= idx < |values| && values[idx].StringValue?
    ensures r.Ok? ==> r.value == values[idx].str
  {
    var v :- GetAt(values, idx);
    if v.StringValue? then Ok(v.str) else Fatal(UNDEFINED)
  }

  //============================================================
  // Linked classes
  //============================================================

  datatype LSlot = VarSlot(name: string, idx: int) | CodeSlot(name: string, code: int)

  datatype LClass = LClass(nvars: nat, nslots: int, slots: seq<LSlot>)

  /** The classes vector: the three reserved tags hold no class. */
  type Classes = seq<Option<LClass>>

  function CountVars(slots: seq<LSlot>): (r: nat)
    ensures r <= |slots|
  {
    if slots == [] then 0 else CountVars(slots[..|slots| - 1]) + (if slots[|slots| - 1].VarSlot? then 1 else 0)
  }

  //============================================================
  // The linker's state and the writers
  //============================================================

  datatype Image = Image(code: seq<Byte>, patches: seq<Patch>, entries: seq<Entry>)

  /** write_class_arity: a char placeholder right at the end of the code. */
  function WithClassArity(s: Image, cls: int): (r: Image)
    ensures r.patches == s.patches + [ClassArityPatch(|s.code|, cls)] && r.entries == s.entries
    ensures Extends(r.code, s.code) && |r.code| == |s.code| + 1 && r.code[|s.code|] == 0
  {
    s.(code := PutChar(s.code, 0), patches := s.patches + [ClassArityPatch(|s.code|, cls)])
  }

  /** write_class_tag: a short placeholder at the next even offset. */
  function WithClassTag(s: Image, cls: int): (r: Image)
    ensures r.entries == s.entries && Extends(r.code, s.code)
    ensures |s.code| <= |r.code| - 2 && (|r.code| - 2) % 2 == 0
    ensures r.patches == s.patches + [ClassTagPatch(|r.code| - 2, cls)]
    ensures r.code[|r.code| - 2..] == [0, 0]
  {
    var c := Pad(s.code, 2);
    AlignUpBounds(|s.code|, 2);
    AlignUpAligned(|s.code|, 2);
    s.(code := PutShort(c, 0), patches := s.patches + [ClassTagPatch(|c|, cls)])
  }

  /** write_function_ptr: a pointer placeholder at the next multiple of 8. */
  function WithFunctionPtr(s: Image, name: string): (r: Image)
    ensures r.entries == s.entries && Extends(r.code, s.code)
    ensures |s.code| <= |r.code| - 8 && (|r.code| - 8) % 8 == 0
    ensures r.patches == s.patches + [FunctionPatch(|r.code| - 8, name)]
    ensures r.code[|r.code| - 8..] == Bytes64(0)
  {
    var c := Pad(s.code, 8);
    AlignUpBounds(|s.code|, 8);
    AlignUpAligned(|s.code|, 8);
    s.(code := PutPtr(c, 0), patches := s.patches + [FunctionPatch(|c|, name)])
  }

  /** write_global_idx: a short placeholder at the next even offset. */
  function WithGlobalIdx(s: Image, name: string): (r: Image)
    ensures r.entries == s.entries && Extends(r.code, s.code)
    ensures |s.code| <= |r.code| - 2 && (|r.code| - 2) % 2 == 0
    ensures r.patches == s.patches + [GlobalIdxPatch(|r.code| - 2, name)]
    ensures r.code[|r.code| - 2..] == [0, 0]
  {
    var c := Pad(s.code, 2);
    AlignUpBounds(|s.code|, 2);
    AlignUpAligned(|s.code|, 2);
    s.(code := PutShort(c, 0), patches := s.patches + [GlobalIdxPatch(|c|, name)])
  }

  /** write_label: a pointer placeholder at the next multiple of 8. */
  function WithLabel(s: Image, name: string): (r: Image)
    ensures r.entries == s.entries && Extends(r.code, s.code)
    ensures |s.code| <= |r.code| - 8 && (|r.code| - 8) % 8 == 0
    ensures r.patches == s.patches + [LabelPatch(|r.code| - 8, name)]
    ensures r.code[|r.code| - 8..] == Bytes64(0)
  {
    var c := Pad(s.code, 8);
    AlignUpBounds(|s.code|, 8);
    AlignUpAligned(|s.code|, 8);
    s.(code := PutPtr(c, 0), patches := s.patches + [LabelPatch(|c|, name)])
  }

  function ValueTag(v: Value): int
  {
    match v
    case IntValue(_) => INT_VAL
    case NullValue => NULL_VAL
    case StringValue(_) => STRING_VAL
    case MethodValue(_, _, _, _) => METHOD_VAL
    case SlotValue(_) => SLOT_VAL
    case ClassValue(_) => CLASS_VAL
  }

  /** The tag byte an instruction is linked with (a literal's when it is an
      integer; a label writes none). */
  function OpTag(ins: Ins): (r: Byte)
  {
    match ins
    case LabelIns(_) => 0
    case LitIns(_) => INT_INS
    case PrintfIns(_, _) => PRINTF_INS
    case ArrayIns => ARRAY_INS
    case ObjectIns(_) => OBJECT_INS
    case SlotIns(_) => SLOT_INS
    case SetSlotIns(_) => SET_SLOT_INS
    case CallSlotIns(_, _) => CALL_SLOT_INS
    case CallIns(_, _) => CALL_INS
    case SetLocalIns(_) => SET_LOCAL_INS
    case GetLocalIns(_) => GET_LOCAL_INS
    case SetGlobalIns(_) => SET_GLOBAL_INS
    case GetGlobalIns(_) => GET_GLOBAL_INS
    case BranchIns(_) => BRANCH_INS
    case GotoIns(_) => GOTO_INS
    case ReturnIns => RETURN_INS
    case DropIns => DROP_INS
  }

  /** link_ins: the code, patches and table after one instruction. */
  function Emit(values: seq<Value>, s: Image, ins: Ins): Result<Image>
  {
    match ins
    case LabelIns(name) =>
      var n :- LinkStr(values, name);
      Ok(s.(entries := s.entries + [LabelEntry(n, |s.code|)]))
    case LitIns(idx) =>
      var v :- GetAt(values, idx);
      if v.IntValue? then Ok(s.(code := PutInt(PutChar(s.code, INT_INS), v.value)))
      else if v.NullValue? then Ok(s.(code := PutChar(s.code, NULL_INS)))
      else Fatal("Unrecognized Literal: " + IntString(ValueTag(v)))
    case PrintfIns(format, arity) =>
      var _ :- LinkStr(values, format);
      Ok(s.(code := PutPtr(PutChar(PutChar(s.code, PRINTF_INS), arity), format)))
    case ArrayIns => Ok(s.(code := PutChar(s.code, ARRAY_INS)))
    case ObjectIns(cls) => Ok(WithClassTag(WithClassArity(s.(code := PutChar(s.code, OBJECT_INS)), cls), cls))
    case SlotIns(name) =>
      var _ :- LinkStr(values, name);
      Ok(s.(code := PutPtr(PutChar(s.code, SLOT_INS), name)))
    case SetSlotIns(name) =>
      var _ :- LinkStr(values, name);
      Ok(s.(code := PutPtr(PutChar(s.code, SET_SLOT_INS), name)))
    case CallSlotIns(name, arity) =>
      var _ :- LinkStr(values, name);
      Ok(s.(code := PutPtr(PutChar(PutChar(s.code, CALL_SLOT_INS), arity), name)))
    case CallIns(name, arity) =>
      var n :- LinkStr(values, name);
      Ok(WithFunctionPtr(s.(code := PutChar(PutChar(s.code, CALL_INS), arity)), n))
    case SetLocalIns(idx) => Ok(s.(code := PutShort(PutChar(s.code, SET_LOCAL_INS), idx)))
    case GetLocalIns(idx) => Ok(s.(code := PutShort(PutChar(s.code, GET_LOCAL_INS), idx)))
    case SetGlobalIns(name) =>
      var n :- LinkStr(values, name);
      Ok(WithGlobalIdx(s.(code := PutChar(s.code, SET_GLOBAL_INS)), n))
    case GetGlobalIns(name) =>
      var n :- LinkStr(values, name);
      Ok(WithGlobalIdx(s.(code := PutChar(s.code, GET_GLOBAL_INS)), n))
    case BranchIns(name) =>
      var n :- LinkStr(values, name);
      Ok(WithLabel(s.(code := PutChar(s.code, BRANCH_INS)), n))
    case GotoIns(name) =>
      var n :- LinkStr(values, name);
      Ok(WithLabel(s.(code := PutChar(s.code, GOTO_INS)), n))
    case ReturnIns => Ok(s.(code := PutChar(s.code, RETURN_INS)))
    case DropIns => Ok(s.(code := PutChar(s.code, DROP_INS)))
  }

  //============================================================
  // Placeholders stay laid out
  //============================================================

  lemma LaidAppend(ps: seq<Patch>, n: int, p: Patch, m: int)
    requires Laid(ps, n) && 0 <= n <= p.pos && p.pos + Width(p) <= m && p.pos % Width(p) == 0
    ensures Laid(ps + [p], m)
  {
  }

  /** `r` only appended to `s`: its new placeholders come after the old
      code, in order, and its new table entries are labels. */
  predicate Grows(s: Image, r: Image)
  {
    Extends(r.code, s.code) && s.patches <= r.patches && s.entries <= r.entries
    && (Laid(s.patches, |s.code|) ==> Laid(r.patches, |r.code|))
    && (forall i :: |s.patches| <= i < |r.patches| ==> |s.code| <= r.patches[i].pos)
    && forall j :: |s.entries| <= j < |r.entries| ==> r.entries[j].LabelEntry?
  }

  lemma GrowsTrans(a: Image, b: Image, c: Image)
    requires Grows(a, b) && Grows(b, c)
    ensures Grows(a, c)
  {
    ExtendsTrans(c.code, b.code, a.code);
  }

  lemma GrowsByCode(s: Image, r: Image)
    requires Extends(r.code, s.code) && r.patches == s.patches && r.entries == s.entries
    ensures Grows(s, r)
  {
  }

  lemma GrowsByPatch(s: Image, r: Image)
    requires Extends(r.code, s.code) && r.entries == s.entries
    requires |r.patches| == |s.patches| + 1 && r.patches[..|s.patches|] == s.patches
    requires |s.code| <= r.patches[|s.patches|].pos
    requires r.patches[|s.patches|].pos + Width(r.patches[|s.patches|]) <= |r.code|
    requires r.patches[|s.patches|].pos % Width(r.patches[|s.patches|]) == 0
    ensures Grows(s, r)
  {
    if Laid(s.patches, |s.code|) {
      assert r.patches == s.patches + [r.patches[|s.patches|]];
      LaidAppend(s.patches, |s.code|, r.patches[|s.patches|], |r.code|);
    }
  }

  lemma GrowsByWriter(s: Image, cls: int, name: string)
    ensures Grows(s, WithClassArity(s, cls)) && Grows(s, WithClassTag(s, cls))
    ensures Grows(s, WithFunctionPtr(s, name)) && Grows(s, WithGlobalIdx(s, name)) && Grows(s, WithLabel(s, name))
  {
    hide WithClassArity, WithClassTag, WithFunctionPtr, WithGlobalIdx, WithLabel, Grows, Laid;
    GrowsByPatch(s, WithClassArity(s, cls));
    GrowsByPatch(s, WithClassTag(s, cls));
    GrowsByPatch(s, WithFunctionPtr(s, name));
    GrowsByPatch(s, WithGlobalIdx(s, name));
    GrowsByPatch(s, WithLabel(s, name));
  }

  /** One instruction only appends: the code, patches and table keep what
      they held, and its placeholders come after the old code in order. */
  lemma EmitGrows(values: seq<Value>, s: Image, ins: Ins)
    requires Emit(values, s, ins).Ok?
    ensures Grows(s, Emit(values, s, ins).value)
  {
    hide Emit, Grows;
    if ins.ObjectIns? {
      ObjectGrows(values, s, ins.cls);
    } else if ins.CallIns? || ins.SetGlobalIns? || ins.GetGlobalIns? || ins.BranchIns? || ins.GotoIns? {
      PatchGrows(values, s, ins);
    } else {
      CodeGrows(values, s, ins);
    }
  }

  lemma ObjectGrows(values: seq<Value>, s: Image, cls: int)
    ensures Grows(s, Emit(values, s, ObjectIns(cls)).value)
  {
    hide PutChar, PutShort, PutInt, PutPtr, Pad, WithClassArity, WithClassTag, WithFunctionPtr, WithGlobalIdx, WithLabel, Grows;
    var s1 := s.(code := PutChar(s.code, OBJECT_INS));
    GrowsByCode(s, s1);
    GrowsByWriter(s1, cls, "");
    GrowsByWriter(WithClassArity(s1, cls), cls, "");
    GrowsTrans(s, s1, WithClassArity(s1, cls));
    GrowsTrans(s, WithClassArity(s1, cls), WithClassTag(WithClassArity(s1, cls), cls));
  }

  /** The instructions that leave one placeholder behind. */
  lemma PatchGrows(values: seq<Value>, s: Image, ins: Ins)
    requires ins.CallIns? || ins.SetGlobalIns? || ins.GetGlobalIns? || ins.BranchIns? || ins.GotoIns?
    requires Emit(values, s, ins).Ok?
    ensures Grows(s, Emit(values, s, ins).value)
  {
    hide PutChar, PutShort, PutInt, PutPtr, Pad, WithClassArity, WithClassTag, WithFunctionPtr, WithGlobalIdx, WithLabel, Grows;
    var n := LinkStr(values, ins.name).value;
    var s1 := s.(code := PutChar(s.code, OpTag(ins)));
    if ins.CallIns? {
      s1 := s.(code := PutChar(PutChar(s.code, CALL_INS), ins.arity));
      ExtendsTrans(s1.code, PutChar(s.code, CALL_INS), s.code);
    }
    GrowsByCode(s, s1);
    GrowsByWriter(s1, 0, n);
    if ins.CallIns? {
      GrowsTrans(s, s1, WithFunctionPtr(s1, n));
    } else if ins.BranchIns? || ins.GotoIns? {
      GrowsTrans(s, s1, WithLabel(s1, n));
    } else {
      GrowsTrans(s, s1, WithGlobalIdx(s1, n));
    }
  }

  /** The instructions that only append bytes or a label. */
  lemma CodeGrows(values: seq<Value>, s: Image, ins: Ins)
    requires !(ins.ObjectIns? || ins.CallIns? || ins.SetGlobalIns? || ins.GetGlobalIns? || ins.BranchIns? || ins.GotoIns?)
    requires Emit(values, s, ins).Ok?
    ensures Grows(s, Emit(values, s, ins).value)
  {
    hide PutShort, PutInt, PutPtr, Pad, WithClassArity, WithClassTag, WithFunctionPtr, WithGlobalIdx, WithLabel;
    var r := Emit(values, s, ins).value;
    var c1 := PutChar(s.code, OpTag(ins));
    if ins.LitIns? && r.code == PutChar(s.code, NULL_INS) {
      c1 := r.code;
    }
    if ins.LabelIns? {
      assert r.code == s.code && r.patches == s.patches;
    } else {
      if ins.PrintfIns? || ins.CallSlotIns? {
        c1 := PutChar(c1, ins.arity);
        ExtendsTrans(c1, PutChar(s.code, OpTag(ins)), s.code);
      }
      if r.code != c1 {
        ExtendsTrans(r.code, c1, s.code);
      }
      GrowsByCode(s, r);
    }
  }

  //============================================================
  // The first pass: methods and their code
  //============================================================

  /** The end of a FRAME header that starts at offset `e`: a char tag, a
      char argument count, then a short local count at the next even
      offset. */
  function HeaderEnd(e: int): int
  {
    AlignUp(e + 2, 2) + 2
  }

  /** write_frame */
  function Frame(code: seq<Byte>, nargs: int, nlocals: int): (r: seq<Byte>)
    ensures Extends(r, code) && |r| == HeaderEnd(|code|)
  {
    PutShort(PutChar(PutChar(code, FRAME_INS), nargs), nlocals)
  }

  /** A FRAME header with these counts starts at offset `e`. */
  predicate FrameAt(code: seq<Byte>, e: int, nargs: int, nlocals: int)
  {
    0 <= e && HeaderEnd(e) <= |code| && code[e] == FRAME_INS && code[e + 1] == nargs % TWO_8
    && code[HeaderEnd(e) - 2..HeaderEnd(e)] == Bytes16(nlocals)
  }

  lemma FrameOf(code: seq<Byte>, nargs: int, nlocals: int)
    ensures FrameAt(Frame(code, nargs, nlocals), |code|, nargs, nlocals)
  {
    var c2 := PutChar(PutChar(code, FRAME_INS), nargs);
    assert c2[|code|] == FRAME_INS && c2[|code| + 1] == nargs % TWO_8;
    assert Frame(code, nargs, nlocals)[..|c2|] == c2;
  }

  lemma FrameAtExtends(code: seq<Byte>, e: int, nargs: int, nlocals: int, big: seq<Byte>)
    requires FrameAt(code, e, nargs, nlocals) && Extends(big, code)
    ensures FrameAt(big, e, nargs, nlocals)
  {
    assert big[HeaderEnd(e) - 2..HeaderEnd(e)] == code[HeaderEnd(e) - 2..HeaderEnd(e)];
  }

  /** The interpreter reads a header back as FRAME, the argument count and
      the local count (a short, so modulo 2^16). */
  lemma FrameReadBack(code: seq<Byte>, e: int, nargs: int, nlocals: int)
    requires FrameAt(code, e, nargs, nlocals)
    ensures NextChar(code, CODE_BASE + e) == Ok((FRAME_INS as int, CODE_BASE + e + 1))
    ensures NextChar(code, CODE_BASE + e + 1) == Ok((nargs % TWO_8, CODE_BASE + e + 2))
    ensures NextShort(code, CODE_BASE + e + 2) == Ok((nlocals % TWO_16, CODE_BASE + HeaderEnd(e)))
  {
    AlignUpBounds(e + 2, 2);
    AlignUpBase(e + 2, 2);
    ShortAt(code, HeaderEnd(e) - 2, nlocals);
  }

  /** The instructions of a method body, linked one after another. */
  function EmitAll(values: seq<Value>, s: Image, body: seq<Ins>, k: nat): Result<Image>
    requires k <= |body|
  {
    if k == 0 then Ok(s)
    else
      var t :- EmitAll(values, s, body, k - 1);
      Emit(values, t, body[k - 1])
  }

  lemma {:induction false} EmitAllGrows(values: seq<Value>, s: Image, body: seq<Ins>, k: nat)
    requires k <= |body| && EmitAll(values, s, body, k).Ok?
    ensures Grows(s, EmitAll(values, s, body, k).value)
  {
    if k > 0 {
      var t := EmitAll(values, s, body, k - 1).value;
      EmitAllGrows(values, s, body, k - 1);
      EmitGrows(values, t, body[k - 1]);
      GrowsTrans(s, t, EmitAll(values, s, body, k).value);
    }
  }

  /** set_method_label then write_frame: the method's entry is where its
      header starts. */
  function Enter(s: Image, i: int, v: Value): Image
    requires v.MethodValue?
  {
    Image(Frame(s.code, v.nargs, v.nlocals), s.patches, s.entries + [MethodEntry(i, |s.code|)])
  }

  /** The first loop of link_program over the first `n` constants: every
      method, in order, as its header followed by its instructions. */
  function CodePhase(values: seq<Value>, n: nat): Result<Image>
    requires n <= |values|
  {
    if n == 0 then Ok(Image([], [], []))
    else
      var s :- CodePhase(values, n - 1);
      var v := values[n - 1];
      if v.MethodValue? then EmitAll(values, Enter(s, n - 1, v), v.code, |v.code|)
      else Ok(s)
  }

  predicate Apart(p: Patch, e: int)
  {
    p.pos + Width(p) <= e || HeaderEnd(e) <= p.pos
  }

  /** The method entry `m` starts a header of its method that no
      placeholder overlaps. */
  predicate HeaderOk(values: seq<Value>, img: Image, m: Entry)
    requires m.MethodEntry?
  {
    0 <= m.idx < |values| && values[m.idx].MethodValue?
    && FrameAt(img.code, m.codepos, values[m.idx].nargs, values[m.idx].nlocals)
    && forall i :: 0 <= i < |img.patches| ==> Apart(img.patches[i], m.codepos)
  }

  /** What the first pass guarantees: the placeholders are laid out, the
      table holds only labels and method entries, and each method entry
      starts an intact header. */
  predicate CodeOk(values: seq<Value>, img: Image)
  {
    Laid(img.patches, |img.code|)
    && (forall j :: 0 <= j < |img.entries| ==> img.entries[j].LabelEntry? || img.entries[j].MethodEntry?)
    && forall j :: 0 <= j < |img.entries| && img.entries[j].MethodEntry? ==> HeaderOk(values, img, img.entries[j])
  }

  lemma CodeOkLaid(values: seq<Value>, img: Image)
    requires CodeOk(values, img)
    ensures Laid(img.patches, |img.code|)
  {
  }

  lemma CodeOkGrows(values: seq<Value>, s: Image, r: Image)
    requires CodeOk(values, s) && Grows(s, r)
    ensures CodeOk(values, r)
  {
    forall j | 0 <= j < |r.entries| && r.entries[j].MethodEntry?
      ensures HeaderOk(values, r, r.entries[j])
    {
      assert j < |s.entries| && r.entries[j] == s.entries[j];
      var m := s.entries[j];
      assert HeaderOk(values, s, m);
      FrameAtExtends(s.code, m.codepos, values[m.idx].nargs, values[m.idx].nlocals, r.code);
      forall i | 0 <= i < |r.patches|
        ensures Apart(r.patches[i], m.codepos)
      {
        if i < |s.patches| {
          assert r.patches[i] == s.patches[i];
        }
      }
    }
  }

  lemma CodeOkEnter(values: seq<Value>, s: Image, i: int)
    requires CodeOk(values, s) && 0 <= i < |values| && values[i].MethodValue?
    ensures CodeOk(values, Enter(s, i, values[i]))
  {
    var v := values[i];
    var r := Enter(s, i, v);
    FrameOf(s.code, v.nargs, v.nlocals);
    forall j | 0 <= j < |r.entries| && r.entries[j].MethodEntry?
      ensures HeaderOk(values, r, r.entries[j])
    {
      if j < |s.entries| {
        var m := s.entries[j];
        assert r.entries[j] == m && HeaderOk(values, s, m);
        FrameAtExtends(s.code, m.codepos, values[m.idx].nargs, values[m.idx].nlocals, r.code);
      }
    }
  }

  lemma {:induction false} CodePhaseOk(values: seq<Value>, n: nat)
    requires n <= |values| && CodePhase(values, n).Ok?
    ensures CodeOk(values, CodePhase(values, n).value)
  {
    if n > 0 {
      var s := CodePhase(values, n - 1).value;
      CodePhaseOk(values, n - 1);
      var v := values[n - 1];
      if v.MethodValue? {
        CodeOkEnter(values, s, n - 1);
        EmitAllGrows(values, Enter(s, n - 1, v), v.code, |v.code|);
        CodeOkGrows(values, Enter(s, n - 1, v), CodePhase(values, n).value);
      }
    }
  }

  //============================================================
  // The second pass: classes
  //============================================================

  /** The tags init_classes reserves, in this order, before any class. */
  const NULL_TAG := 0
  const INT_TAG := 1
  const ARRAY_TAG := 2
  const RESERVED: Classes := [None, None, None]

  /** One member of a class: a variable slot numbered after the `nvars`
      before it, or a method slot bound to its method's entry. */
  function SlotOf(values: seq<Value>, entries: seq<Entry>, vidx: int, nvars: int): Result<LSlot>
  {
    var v :- GetAt(values, vidx);
    if v.SlotValue? then
      var name :- LinkStr(values, v.name);
      Ok(VarSlot(name, nvars))
    else if v.MethodValue? then
      var name :- LinkStr(values, v.name);
      var pos :- TableGet(entries, MethodKey(vidx));
      Ok(CodeSlot(name, CODE_BASE + pos))
    else Fatal("Invalid class slot: " + IntString(ValueTag(v)))
  }

  /** The loop of make_class over the first `k` members. */
  function ClassSlots(values: seq<Value>, entries: seq<Entry>, members: seq<int>, k: nat): (r: Result<seq<LSlot>>)
    requires k <= |members|
    ensures r.Ok? ==> |r.value| == k
  {
    if k == 0 then Ok([])
    else
      var slots :- ClassSlots(values, entries, members, k - 1);
      var slot :- SlotOf(values, entries, members[k - 1], CountVars(slots));
      Ok(slots + [slot])
  }

  /** A member of a linked class is what its constant says: a variable
      slot carries the number of variable slots declared before it, a
      method slot the entry of its method; no other constant is one. */
  predicate SlotFits(values: seq<Value>, entries: seq<Entry>, vidx: int, slot: LSlot, nvars: int)
  {
    0 <= vidx < |values|
    && (values[vidx].SlotValue? || values[vidx].MethodValue?)
    && LinkStr(values, values[vidx].name) == Ok(slot.name)
    && (values[vidx].SlotValue? ==> slot == VarSlot(slot.name, nvars))
    && (values[vidx].MethodValue? ==> slot.CodeSlot? && TableGet(entries, MethodKey(vidx)) == Ok(slot.code - CODE_BASE))
  }

  lemma SlotOfFits(values: seq<Value>, entries: seq<Entry>, vidx: int, nvars: int)
    requires SlotOf(values, entries, vidx, nvars).Ok?
    ensures SlotFits(values, entries, vidx, SlotOf(values, entries, vidx, nvars).value, nvars)
  {
  }

  /** Every member of a class made without error fits its constant, with
      the variable slots counted in declaration order. */
  lemma {:induction false} ClassSlotsSpec(values: seq<Value>, entries: seq<Entry>, members: seq<int>, k: nat)
    requires k <= |members| && ClassSlots(values, entries, members, k).Ok?
    ensures var slots := ClassSlots(values, entries, members, k).value;
      forall j :: 0 <= j < k ==> SlotFits(values, entries, members[j], slots[j], CountVars(slots[..j]))
  {
    if k > 0 {
      var slots := ClassSlots(values, entries, members, k).value;
      var prev := ClassSlots(values, entries, members, k - 1).value;
      ClassSlotsSpec(values, entries, members, k - 1);
      hide SlotFits, SlotOf, CountVars;
      assert slots == prev + [SlotOf(values, entries, members[k - 1], CountVars(prev)).value];
      SlotOfFits(values, entries, members[k - 1], CountVars(prev));
      forall j | 0 <= j < k
        ensures SlotFits(values, entries, members[j], slots[j], CountVars(slots[..j]))
      {
        if j < k - 1 {
          assert slots[..j] == prev[..j] && slots[j] == prev[j];
        } else {
          assert slots[..j] == prev;
        }
      }
    }
  }

  /** The variable slots are numbered 0, 1, ... in declaration order. */
  lemma {:induction false} VarsNumbered(slots: seq<LSlot>)
    requires forall j :: 0 <= j < |slots| && slots[j].VarSlot? ==> slots[j].idx == CountVars(slots[..j])
    ensures forall j :: 0 <= j < |slots| && slots[j].VarSlot? ==> 0 <= slots[j].idx < CountVars(slots)
    ensures forall j, l :: 0 <= j < l < |slots| && slots[j].VarSlot? && slots[l].VarSlot? ==> slots[j].idx < slots[l].idx
  {
    if slots != [] {
      var init := slots[..|slots| - 1];
      forall j | 0 <= j < |init| && init[j].VarSlot?
        ensures init[j].idx == CountVars(init[..j])
      {
        assert init[..j] == slots[..j];
      }
      VarsNumbered(init);
      assert slots[..|slots| - 1] == init;
      forall j, l | 0 <= j < l < |slots| && slots[j].VarSlot? && slots[l].VarSlot?
        ensures slots[j].idx < slots[l].idx
      {
        if l < |slots| - 1 {
          assert init[j] == slots[j] && init[l] == slots[l];
        } else {
          assert init[j] == slots[j];
        }
      }
      forall j | 0 <= j < |slots| && slots[j].VarSlot?
        ensures slots[j].idx < CountVars(slots)
      {
        if j < |slots| - 1 {
          assert init[j] == slots[j];
        }
      }
    }
  }

  /** make_class: its slots, the number of variable slots, the number of
      members. */
  function MakeClass(values: seq<Value>, entries: seq<Entry>, members: seq<int>): (r: Result<LClass>)
    ensures r.Ok? ==> r.value.nslots == |r.value.slots| == |members| && 0 <= r.value.nvars <= |members|
  {
    var slots :- ClassSlots(values, entries, members, |members|);
    Ok(LClass(CountVars(slots), |members|, slots))
  }

  /** The number of class constants among the first `n`. */
  function NumClasses(values: seq<Value>, n: nat): (r: nat)
    requires n <= |values|
    ensures r <= n
  {
    if n == 0 then 0 else NumClasses(values, n - 1) + (if values[n - 1].ClassValue? then 1 else 0)
  }

  /** The second loop of link_program over the first `n` constants: each
      class is made and its tag recorded against its constant index. */
  function ClassPhase(values: seq<Value>, entries: seq<Entry>, n: nat): Result<(Classes, seq<Entry>)>
    requires n <= |values|
  {
    if n == 0 then Ok((RESERVED, entries))
    else
      var acc :- ClassPhase(values, entries, n - 1);
      var v := values[n - 1];
      if v.ClassValue? then
        var c :- MakeClass(values, acc.1, v.slots);
        Ok((acc.0 + [Some(c)], acc.1 + [ClassEntry(n - 1, |acc.0|)]))
      else Ok(acc)
  }

  /** The reserved tags stay empty, every class gets the next tag from 3
      on, and the second pass only adds class entries. */
  lemma {:induction false} ClassPhaseShape(values: seq<Value>, entries: seq<Entry>, n: nat)
    requires n <= |values| && ClassPhase(values, entries, n).Ok?
    ensures var r := ClassPhase(values, entries, n).value;
      |r.0| == 3 + NumClasses(values, n) && r.0[..3] == RESERVED
      && (forall t :: 3 <= t < |r.0| ==> r.0[t].Some?)
      && entries <= r.1
      && (forall j :: |entries| <= j < |r.1| ==> r.1[j].ClassEntry? && 0 <= r.1[j].idx < n)
  {
    if n > 0 {
      ClassPhaseShape(values, entries, n - 1);
      hide MakeClass;
    }
  }

  /** One step of the second pass, on the table. */
  lemma ClassPhaseStep(values: seq<Value>, entries: seq<Entry>, n: nat)
    requires 0 < n <= |values| && ClassPhase(values, entries, n).Ok?
    ensures ClassPhase(values, entries, n - 1).Ok?
    ensures var acc := ClassPhase(values, entries, n - 1).value;
      ClassPhase(values, entries, n).value.1
        == acc.1 + if values[n - 1].ClassValue? then [ClassEntry(n - 1, |acc.0|)] else []
  {
    hide MakeClass;
  }

  /** No entry of the table answers a class index the pass has not
      reached. */
  lemma ClassPhaseFresh(values: seq<Value>, entries: seq<Entry>, n: nat, i: int)
    requires n <= |values| && ClassPhase(values, entries, n).Ok? && n <= i
    requires forall j :: 0 <= j < |entries| ==> !entries[j].ClassEntry?
    ensures FindFrom(ClassPhase(values, entries, n).value.1, ClassKey(i), 0) == None
  {
    var r := ClassPhase(values, entries, n).value;
    ClassPhaseShape(values, entries, n);
    forall j | 0 <= j < |r.1|
      ensures !Answers(r.1[j], ClassKey(i))
    {
      if j < |entries| {
        assert r.1[j] == entries[j];
      }
    }
    NotFound(r.1, ClassKey(i), 0);
  }

  /** The tag a class index is to find after the first `n` constants. */
  function TagOf(values: seq<Value>, i: int): Option<int>
    requires 0 <= i < |values|
  {
    if values[i].ClassValue? then Some(3 + NumClasses(values, i)) else None
  }

  lemma ClassTagAt(values: seq<Value>, entries: seq<Entry>, n: nat, i: int)
    requires 0 < n <= |values| && ClassPhase(values, entries, n).Ok? && 0 <= i < n
    requires forall j :: 0 <= j < |entries| ==> !entries[j].ClassEntry?
    requires ClassPhase(values, entries, n - 1).Ok?
    requires i < n - 1 ==> FindFrom(ClassPhase(values, entries, n - 1).value.1, ClassKey(i), 0) == TagOf(values, i)
    ensures FindFrom(ClassPhase(values, entries, n).value.1, ClassKey(i), 0) == TagOf(values, i)
  {
    hide ClassPhase, FindFrom, NumClasses;
    var acc := ClassPhase(values, entries, n - 1).value;
    var r := ClassPhase(values, entries, n).value;
    ClassPhaseStep(values, entries, n);
    ClassPhaseShape(values, entries, n - 1);
    if i == n - 1 {
      ClassPhaseFresh(values, entries, n - 1, n - 1);
    }
    var more := if values[n - 1].ClassValue? then [ClassEntry(n - 1, |acc.0|)] else [];
    assert r.1 == acc.1 + more;
    FindAppend(acc.1, more, ClassKey(i), 0);
    if i < n - 1 || !values[n - 1].ClassValue? {
      NotFound(r.1, ClassKey(i), |acc.1|);
    } else {
      FoundHere(r.1, ClassKey(i), |acc.1|);
    }
  }

  /** A class index finds the tag `3 + (classes before it)` exactly when
      that constant is a class. */
  lemma {:induction false} ClassPhaseTags(values: seq<Value>, entries: seq<Entry>, n: nat)
    requires n <= |values| && ClassPhase(values, entries, n).Ok?
    requires forall j :: 0 <= j < |entries| ==> !entries[j].ClassEntry?
    ensures forall i :: 0 <= i < n ==> FindFrom(ClassPhase(values, entries, n).value.1, ClassKey(i), 0) == TagOf(values, i)
  {
    if n > 0 {
      ClassPhaseStep(values, entries, n);
      ClassPhaseTags(values, entries, n - 1);
      forall i | 0 <= i < n
        ensures FindFrom(ClassPhase(values, entries, n).value.1, ClassKey(i), 0) == TagOf(values, i)
      {
        ClassTagAt(values, entries, n, i);
      }
    }
  }

  //============================================================
  // The third pass: globals
  //============================================================

  /** The number of variable globals among the first `n` global slots. */
  function NumVarGlobals(values: seq<Value>, slots: seq<int>, n: nat): (r: nat)
    requires n <= |slots|
    ensures r <= n
  {
    if n == 0 then 0
    else NumVarGlobals(values, slots, n - 1) + (if 0 <= slots[n - 1] < |values| && values[slots[n - 1]].SlotValue? then 1 else 0)
  }

  /** The third loop of link_program over the first `n` global slots: a
      variable becomes the next global, a method a named function. */
  function GlobalPhase(values: seq<Value>, slots: seq<int>, entries: seq<Entry>, n: nat): Result<(seq<string>, seq<Entry>)>
    requires n <= |slots|
  {
    if n == 0 then Ok(([], entries))
    else
      var acc :- GlobalPhase(values, slots, entries, n - 1);
      var idx := slots[n - 1];
      var v :- GetAt(values, idx);
      if v.SlotValue? then
        var name :- LinkStr(values, v.name);
        Ok((acc.0 + [name], acc.1))
      else if v.MethodValue? then
        var name :- LinkStr(values, v.name);
        var pos :- TableGet(acc.1, MethodKey(idx));
        Ok((acc.0, acc.1 + [FunctionEntry(name, pos)]))
      else Fatal("Not a global.")
  }

  /** Global slot `j` is a variable or a method, and a variable holds the
      global index after the variables declared before it. */
  predicate GlobalFits(values: seq<Value>, slots: seq<int>, j: int, globals: seq<string>)
  {
    0 <= j < |slots| && 0 <= slots[j] < |values|
    && (values[slots[j]].SlotValue? || values[slots[j]].MethodValue?)
    && (values[slots[j]].SlotValue? ==>
          NumVarGlobals(values, slots, j) < |globals|
          && LinkStr(values, values[slots[j]].name) == Ok(globals[NumVarGlobals(values, slots, j)]))
  }

  /** One step of the third pass. */
  lemma GlobalPhaseStep(values: seq<Value>, slots: seq<int>, entries: seq<Entry>, n: nat)
    requires 0 < n <= |slots| && GlobalPhase(values, slots, entries, n).Ok?
    ensures GlobalPhase(values, slots, entries, n - 1).Ok?
    ensures var acc := GlobalPhase(values, slots, entries, n - 1).value;
      var r := GlobalPhase(values, slots, entries, n).value;
      0 <= slots[n - 1] < |values| && (values[slots[n - 1]].SlotValue? || values[slots[n - 1]].MethodValue?)
      && LinkStr(values, values[slots[n - 1]].name).Ok?
      && (values[slots[n - 1]].SlotValue? ==>
            r.1 == acc.1 && r.0 == acc.0 + [LinkStr(values, values[slots[n - 1]].name).value])
      && (values[slots[n - 1]].MethodValue? ==>
            r.0 == acc.0 && |r.1| == |acc.1| + 1 && r.1[..|acc.1|] == acc.1 && r.1[|acc.1|].FunctionEntry?)
  {
    hide LinkStr, TableGet;
  }

  /** Every global slot is a variable or a method (anything else is
      fatal); the variables are numbered in declaration order; the pass
      only adds function entries. */
  lemma {:induction false} GlobalPhaseSpec(values: seq<Value>, slots: seq<int>, entries: seq<Entry>, n: nat)
    requires n <= |slots| && GlobalPhase(values, slots, entries, n).Ok?
    ensures var r := GlobalPhase(values, slots, entries, n).value;
      |r.0| == NumVarGlobals(values, slots, n)
      && entries <= r.1 && (forall j :: |entries| <= j < |r.1| ==> r.1[j].FunctionEntry?)
      && forall j :: 0 <= j < n ==> GlobalFits(values, slots, j, r.0)
  {
    if n > 0 {
      var acc := GlobalPhase(values, slots, entries, n - 1).value;
      var r := GlobalPhase(values, slots, entries, n).value;
      GlobalPhaseSpec(values, slots, entries, n - 1);
      GlobalPhaseStep(values, slots, entries, n);
      hide GlobalPhase, LinkStr;
      forall j | 0 <= j < n
        ensures GlobalFits(values, slots, j, r.0)
      {
        if j < n - 1 {
          assert GlobalFits(values, slots, j, acc.0);
          assert r.0[..|acc.0|] == acc.0;
        }
      }
    }
  }

  lemma {:induction false} NumVarGlobalsMono(values: seq<Value>, slots: seq<int>, j: nat, n: nat)
    requires j < n <= |slots| && 0 <= slots[j] < |values| && values[slots[j]].SlotValue?
    ensures NumVarGlobals(values, slots, j) < NumVarGlobals(values, slots, n)
  {
    if j < n - 1 {
      NumVarGlobalsMono(values, slots, j, n - 1);
    }
  }

  /** A method global's function entry points at its method's entry. */
  lemma {:induction false} GlobalFunctions(values: seq<Value>, slots: seq<int>, entries: seq<Entry>, n: nat, j: nat)
    requires n <= |slots| && GlobalPhase(values, slots, entries, n).Ok? && j < n
    requires 0 <= slots[j] < |values| && values[slots[j]].MethodValue?
    requires forall l :: 0 <= l < |entries| ==> !entries[l].FunctionEntry?
    ensures LinkStr(values, values[slots[j]].name).Ok?
    ensures TableGet(entries, MethodKey(slots[j])).Ok?
    ensures FunctionEntry(LinkStr(values, values[slots[j]].name).value, TableGet(entries, MethodKey(slots[j])).value)
              in GlobalPhase(values, slots, entries, n).value.1
  {
    var acc := GlobalPhase(values, slots, entries, n - 1).value;
    GlobalPhaseSpec(values, slots, entries, n - 1);
    if j < n - 1 {
      GlobalFunctions(values, slots, entries, n - 1, j);
    } else {
      var more := acc.1[|entries|..];
      assert acc.1 == entries + more;
      FindAppend(entries, more, MethodKey(slots[j]), 0);
      NotFound(acc.1, MethodKey(slots[j]), |entries|);
    }
  }

  //============================================================
  // The last pass: patches
  //============================================================

  /** The bytes that replace a placeholder: a code address for a label or
      a function, a short class tag, the class's variable count as a char,
      or a short global index.  Whatever cannot be found is fatal. */
  function Resolve(entries: seq<Entry>, classes: Classes, globals: seq<string>, p: Patch): (r: Result<seq<Byte>>)
    ensures r.Ok? ==> |r.value| == Width(p)
  {
    match p
    case LabelPatch(_, name) =>
      var pos :- TableGet(entries, LabelKey(name));
      Ok(Bytes64(CODE_BASE + pos))
    case FunctionPatch(_, name) =>
      var pos :- TableGet(entries, FunctionKey(name));
      Ok(Bytes64(CODE_BASE + pos))
    case ClassTagPatch(_, cls) =>
      var tag :- TableGet(entries, ClassKey(cls));
      Ok(Bytes16(tag))
    case ClassArityPatch(_, cls) =>
      var tag :- TableGet(entries, ClassKey(cls));
      var c :- GetAt(classes, Wrap16(tag));
      if c.None? then Fatal(UNDEFINED) else Ok([c.value.nvars % TWO_8])
    case GlobalIdxPatch(_, name) =>
      var idx :- GlobalIdx(globals, name);
      Ok(Bytes16(idx))
  }

  /** The bytes `b` written over the buffer at `pos`. */
  function Overwrite(code: seq<Byte>, pos: int, b: seq<Byte>): (r: Result<seq<Byte>>)
    ensures r.Ok? <==> 0 <= pos && pos + |b| <= |code|
    ensures r.Ok? ==> |r.value| == |code| && r.value[pos..pos + |b|] == b
    ensures r.Ok? ==> forall k :: 0 <= k < |code| && !(pos <= k < pos + |b|) ==> r.value[k] == code[k]
  {
    if 0 <= pos && pos + |b| <= |code| then Ok(code[..pos] + b + code[pos + |b|..]) else Fatal(UNDEFINED)
  }

  /** The patch loop over the first `k` patches, in order. */
  function ApplyPatches(code: seq<Byte>, ps: seq<Patch>, entries: seq<Entry>, classes: Classes, globals: seq<string>, k: nat): Result<seq<Byte>>
    requires k <= |ps|
  {
    if k == 0 then Ok(code)
    else
      var c :- ApplyPatches(code, ps, entries, classes, globals, k - 1);
      var b :- Resolve(entries, classes, globals, ps[k - 1]);
      Overwrite(c, ps[k - 1].pos, b)
  }

  /** The first `k` placeholders hold their resolved bytes. */
  predicate Holds(c: seq<Byte>, ps: seq<Patch>, entries: seq<Entry>, classes: Classes, globals: seq<string>, k: nat)
    requires k <= |ps|
  {
    forall i :: 0 <= i < k ==>
      Resolve(entries, classes, globals, ps[i]).Ok? && 0 <= ps[i].pos && ps[i].pos + Width(ps[i]) <= |c|
      && c[ps[i].pos..ps[i].pos + Width(ps[i])] == Resolve(entries, classes, globals, ps[i]).value
  }

  /** Every byte outside the first `k` placeholders is as it was. */
  predicate Untouched(c: seq<Byte>, code: seq<Byte>, ps: seq<Patch>, k: nat)
    requires k <= |ps|
  {
    |c| == |code| && forall x :: 0 <= x < |code| && (forall i :: 0 <= i < k ==> !Covers(ps[i], x)) ==> c[x] == code[x]
  }

  lemma UntouchedLength(c: seq<Byte>, code: seq<Byte>, ps: seq<Patch>, k: nat)
    requires k <= |ps| && Untouched(c, code, ps, k)
    ensures |c| == |code|
  {
  }

  lemma PatchStep(code: seq<Byte>, ps: seq<Patch>, entries: seq<Entry>, classes: Classes, globals: seq<string>, k: nat,
                  prev: seq<Byte>, b: seq<Byte>, c: seq<Byte>)
    requires 0 < k <= |ps| && Laid(ps, |code|)
    requires Holds(prev, ps, entries, classes, globals, k - 1) && Untouched(prev, code, ps, k - 1)
    requires Resolve(entries, classes, globals, ps[k - 1]) == Ok(b) && Overwrite(prev, ps[k - 1].pos, b) == Ok(c)
    ensures Holds(c, ps, entries, classes, globals, k) && Untouched(c, code, ps, k)
  {
    hide Resolve, Overwrite;
    KeepHolds(ps, entries, classes, globals, k, prev, b, c);
    KeepUntouched(code, ps, k, prev, b, c);
  }

  lemma KeepHolds(ps: seq<Patch>, entries: seq<Entry>, classes: Classes, globals: seq<string>, k: nat,
                  prev: seq<Byte>, b: seq<Byte>, c: seq<Byte>)
    requires 0 < k <= |ps| && forall i :: 0 <= i < k - 1 ==> ps[i].pos + Width(ps[i]) <= ps[k - 1].pos
    requires Holds(prev, ps, entries, classes, globals, k - 1)
    requires Resolve(entries, classes, globals, ps[k - 1]) == Ok(b) && Overwrite(prev, ps[k - 1].pos, b) == Ok(c)
    ensures Holds(c, ps, entries, classes, globals, k)
  {
    hide Resolve;
    forall i | 0 <= i < k - 1
      ensures c[ps[i].pos..ps[i].pos + Width(ps[i])] == prev[ps[i].pos..ps[i].pos + Width(ps[i])]
    {
    }
  }

  lemma KeepUntouched(code: seq<Byte>, ps: seq<Patch>, k: nat, prev: seq<Byte>, b: seq<Byte>, c: seq<Byte>)
    requires 0 < k <= |ps| && |b| == Width(ps[k - 1])
    requires Untouched(prev, code, ps, k - 1) && Overwrite(prev, ps[k - 1].pos, b) == Ok(c)
    ensures Untouched(c, code, ps, k)
  {
    forall x | 0 <= x < |code| && (forall i :: 0 <= i < k ==> !Covers(ps[i], x))
      ensures c[x] == code[x]
    {
      assert !Covers(ps[k - 1], x);
    }
  }

  /** The patch-resolution invariant: on laid-out placeholders the loop
      fails exactly when a target cannot be resolved; otherwise every
      placeholder holds its resolved bytes and every other byte is what
      the first pass wrote. */
  lemma {:induction false} PatchesResolved(code: seq<Byte>, ps: seq<Patch>, entries: seq<Entry>, classes: Classes, globals: seq<string>, k: nat)
    requires k <= |ps| && Laid(ps, |code|)
    ensures ApplyPatches(code, ps, entries, classes, globals, k).Ok?
        <==> forall i :: 0 <= i < k ==> Resolve(entries, classes, globals, ps[i]).Ok?
    ensures ApplyPatches(code, ps, entries, classes, globals, k).Ok? ==>
      Holds(ApplyPatches(code, ps, entries, classes, globals, k).value, ps, entries, classes, globals, k)
      && Untouched(ApplyPatches(code, ps, entries, classes, globals, k).value, code, ps, k)
  {
    if k > 0 {
      hide Holds, Untouched, Resolve;
      PatchesResolved(code, ps, entries, classes, globals, k - 1);
      var r := ApplyPatches(code, ps, entries, classes, globals, k - 1);
      var rb := Resolve(entries, classes, globals, ps[k - 1]);
      if r.Fatal? {
        var i :| 0 <= i < k - 1 && !Resolve(entries, classes, globals, ps[i]).Ok?;
      } else if rb.Fatal? {
        assert !Resolve(entries, classes, globals, ps[k - 1]).Ok?;
      } else {
        var b := rb.value;
        UntouchedLength(r.value, code, ps, k - 1);
        assert 0 <= ps[k - 1].pos && ps[k - 1].pos + |b| <= |r.value|;
        PatchStep(code, ps, entries, classes, globals, k, r.value, b, Overwrite(r.value, ps[k - 1].pos, b).value);
      }
    }
  }

  //============================================================
  // The first error ends a pass
  //============================================================

  /** An error in the first `k` methods is the error of the whole first
      pass: the C code prints it and exits. */
  lemma {:induction false} CodePhaseStops(values: seq<Value>, k: nat, n: nat)
    requires k <= n <= |values| && CodePhase(values, k).Fatal?
    ensures CodePhase(values, n) == CodePhase(values, k)
  {
    hide EmitAll, Enter;
    if k < n {
      CodePhaseStops(values, k, n - 1);
    }
  }

  lemma {:induction false} EmitAllStops(values: seq<Value>, s: Image, body: seq<Ins>, k: nat, n: nat)
    requires k <= n <= |body| && EmitAll(values, s, body, k).Fatal?
    ensures EmitAll(values, s, body, n) == EmitAll(values, s, body, k)
  {
    hide Emit;
    if k < n {
      EmitAllStops(values, s, body, k, n - 1);
    }
  }

  lemma {:induction false} ClassSlotsStop(values: seq<Value>, entries: seq<Entry>, members: seq<int>, k: nat, n: nat)
    requires k <= n <= |members| && ClassSlots(values, entries, members, k).Fatal?
    ensures ClassSlots(values, entries, members, n) == ClassSlots(values, entries, members, k)
  {
    hide SlotOf, CountVars;
    if k < n {
      ClassSlotsStop(values, entries, members, k, n - 1);
    }
  }

  lemma {:induction false} ClassPhaseStops(values: seq<Value>, entries: seq<Entry>, k: nat, n: nat)
    requires k <= n <= |values| && ClassPhase(values, entries, k).Fatal?
    ensures ClassPhase(values, entries, n) == ClassPhase(values, entries, k)
  {
    hide MakeClass;
    if k < n {
      ClassPhaseStops(values, entries, k, n - 1);
    }
  }

  lemma {:induction false} GlobalPhaseStops(values: seq<Value>, slots: seq<int>, entries: seq<Entry>, k: nat, n: nat)
    requires k <= n <= |slots| && GlobalPhase(values, slots, entries, k).Fatal?
    ensures GlobalPhase(values, slots, entries, n) == GlobalPhase(values, slots, entries, k)
  {
    hide LinkStr, TableGet, GetAt;
    if k < n {
      GlobalPhaseStops(values, slots, entries, k, n - 1);
    }
  }

  lemma {:induction false} PatchesStop(code: seq<Byte>, ps: seq<Patch>, entries: seq<Entry>, classes: Classes, globals: seq<string>, k: nat, n: nat)
    requires k <= n <= |ps| && ApplyPatches(code, ps, entries, classes, globals, k).Fatal?
    ensures ApplyPatches(code, ps, entries, classes, globals, n) == ApplyPatches(code, ps, entries, classes, globals, k)
  {
    hide Resolve, Overwrite;
    if k < n {
      PatchesStop(code, ps, entries, classes, globals, k, n - 1);
    }
  }

  //============================================================
  // link_program
  //============================================================

  /** The linked program: the patched code, the table, the classes, the
      global names and the entry address, with the constant pool that the
      string pointers in the code index. */
  datatype Linked = Linked(code: seq<Byte>, entries: seq<Entry>, classes: Classes, globals: seq<string>, entry: int,
                           pool: seq<Value>)

  /** link_program: methods, then classes, then globals, then patches;
      the entry is the address of the entry method. */
  function Link(prog: Program): Result<Linked>
  {
    var img :- CodePhase(prog.values, |prog.values|);
    var cls :- ClassPhase(prog.values, img.entries, |prog.values|);
    var glb :- GlobalPhase(prog.values, prog.slots, cls.1, |prog.slots|);
    var code :- ApplyPatches(img.code, img.patches, glb.1, cls.0, glb.0, |img.patches|);
    var entry :- TableGet(glb.1, MethodKey(prog.entry));
    Ok(Linked(code, glb.1, cls.0, glb.0, CODE_BASE + entry, prog.values))
  }

  lemma FrameAtKept(code: seq<Byte>, c: seq<Byte>, e: int, nargs: int, nlocals: int)
    requires FrameAt(code, e, nargs, nlocals) && |c| == |code|
    requires forall x :: e <= x < HeaderEnd(e) ==> c[x] == code[x]
    ensures FrameAt(c, e, nargs, nlocals)
  {
    assert c[HeaderEnd(e) - 2..HeaderEnd(e)] == code[HeaderEnd(e) - 2..HeaderEnd(e)];
  }

  /** The facts the phases establish about a linked program. */
  lemma Phases(prog: Program)
    requires Link(prog).Ok?
    ensures CodePhase(prog.values, |prog.values|).Ok?
    ensures var img := CodePhase(prog.values, |prog.values|).value;
      var L := Link(prog).value;
      CodeOk(prog.values, img) && img.entries <= L.entries
      && (forall j :: |img.entries| <= j < |L.entries| ==> L.entries[j].ClassEntry? || L.entries[j].FunctionEntry?)
      && ApplyPatches(img.code, img.patches, L.entries, L.classes, L.globals, |img.patches|) == Ok(L.code)
      && TableGet(L.entries, MethodKey(prog.entry)) == Ok(L.entry - CODE_BASE)
  {
    hide CodePhase, ClassPhase, GlobalPhase, ApplyPatches, TableGet, CodeOk, GlobalFits, NumClasses, NumVarGlobals;
    var values := prog.values;
    var img := CodePhase(values, |values|).value;
    CodePhaseOk(values, |values|);
    var cls := ClassPhase(values, img.entries, |values|).value;
    ClassPhaseShape(values, img.entries, |values|);
    GlobalPhaseSpec(values, prog.slots, cls.1, |prog.slots|);
  }

  /** A method address found in a table that extends the first pass's
      with classes and functions starts an intact header in the patched
      code. */
  lemma HeaderKept(values: seq<Value>, img: Image, entries: seq<Entry>, code: seq<Byte>, i: int, e: int)
    requires CodeOk(values, img) && img.entries <= entries
    requires forall j :: |img.entries| <= j < |entries| ==> entries[j].ClassEntry? || entries[j].FunctionEntry?
    requires Untouched(code, img.code, img.patches, |img.patches|)
    requires TableGet(entries, MethodKey(i)) == Ok(e)
    ensures 0 <= i < |values| && values[i].MethodValue? && FrameAt(code, e, values[i].nargs, values[i].nlocals)
  {
    var j :| 0 <= j < |entries| && Answers(entries[j], MethodKey(i)) && Payload(entries[j]) == e;
    assert j < |img.entries| && entries[j] == img.entries[j];
    var m := img.entries[j];
    assert HeaderOk(values, img, m);
    forall x | e <= x < HeaderEnd(e)
      ensures code[x] == img.code[x]
    {
      forall p | 0 <= p < |img.patches|
        ensures !Covers(img.patches[p], x)
      {
        assert Apart(img.patches[p], e);
      }
    }
    FrameAtKept(img.code, code, e, values[i].nargs, values[i].nlocals);
  }

  /** After linking, every method address the table gives starts a FRAME
      header of that method, and the entry address is one the interpreter
      reads back as FRAME with the entry method's counts. */
  lemma LinkedHeaders(prog: Program)
    requires Link(prog).Ok?
    ensures var L := Link(prog).value;
      forall i, e :: TableGet(L.entries, MethodKey(i)) == Ok(e) ==>
        0 <= i < |prog.values| && prog.values[i].MethodValue?
        && FrameAt(L.code, e, prog.values[i].nargs, prog.values[i].nlocals)
    ensures var L := Link(prog).value;
      0 <= prog.entry < |prog.values| && prog.values[prog.entry].MethodValue?
      && NextChar(L.code, L.entry) == Ok((FRAME_INS as int, L.entry + 1))
      && NextChar(L.code, L.entry + 1) == Ok((prog.values[prog.entry].nargs % TWO_8, L.entry + 2))
  {
    hide Link, CodePhase, ApplyPatches, CodeOk, TableGet;
    var values := prog.values;
    var L := Link(prog).value;
    Phases(prog);
    var img := CodePhase(values, |values|).value;
    CodeOkLaid(values, img);
    PatchesResolved(img.code, img.patches, L.entries, L.classes, L.globals, |img.patches|);
    forall i, e | TableGet(L.entries, MethodKey(i)) == Ok(e)
      ensures 0 <= i < |values| && values[i].MethodValue? && FrameAt(L.code, e, values[i].nargs, values[i].nlocals)
    {
      HeaderKept(values, img, L.entries, L.code, i, e);
    }
    var e := L.entry - CODE_BASE;
    HeaderKept(values, img, L.entries, L.code, prog.entry, e);
    FrameReadBack(L.code, e, values[prog.entry].nargs, values[prog.entry].nlocals);
  }

  /** What the interpreter reads at a resolved placeholder: the target
      address of a label or function, the class tag, the class's variable
      count, or the global index. */
  predicate ReadsBack(code: seq<Byte>, entries: seq<Entry>, classes: Classes, globals: seq<string>, p: Patch)
  {
    match p
    case LabelPatch(pos, name) =>
      TableGet(entries, LabelKey(name)).Ok?
      && NextPtr(code, CODE_BASE + pos) == Ok(((CODE_BASE + TableGet(entries, LabelKey(name)).value) % TWO_64, CODE_BASE + pos + 8))
    case FunctionPatch(pos, name) =>
      TableGet(entries, FunctionKey(name)).Ok?
      && NextPtr(code, CODE_BASE + pos) == Ok(((CODE_BASE + TableGet(entries, FunctionKey(name)).value) % TWO_64, CODE_BASE + pos + 8))
    case ClassTagPatch(pos, cls) =>
      TableGet(entries, ClassKey(cls)).Ok?
      && NextShort(code, CODE_BASE + pos) == Ok((TableGet(entries, ClassKey(cls)).value % TWO_16, CODE_BASE + pos + 2))
    case ClassArityPatch(pos, cls) =>
      TableGet(entries, ClassKey(cls)).Ok?
      && var t := Wrap16(TableGet(entries, ClassKey(cls)).value);
      0 <= t < |classes| && classes[t].Some?
      && NextChar(code, CODE_BASE + pos) == Ok((classes[t].value.nvars % TWO_8, CODE_BASE + pos + 1))
    case GlobalIdxPatch(pos, name) =>
      GlobalIdx(globals, name).Ok?
      && NextShort(code, CODE_BASE + pos) == Ok((GlobalIdx(globals, name).value % TWO_16, CODE_BASE + pos + 2))
  }

  lemma PatchReadBack(code: seq<Byte>, entries: seq<Entry>, classes: Classes, globals: seq<string>, p: Patch)
    requires 0 <= p.pos && p.pos + Width(p) <= |code| && p.pos % Width(p) == 0
    requires Resolve(entries, classes, globals, p).Ok?
    requires code[p.pos..p.pos + Width(p)] == Resolve(entries, classes, globals, p).value
    ensures ReadsBack(code, entries, classes, globals, p)
  {
    if p.LabelPatch? || p.FunctionPatch? {
      PtrReadBack8(code, entries, classes, globals, p);
    } else if p.ClassArityPatch? {
      var b := Resolve(entries, classes, globals, p).value;
      assert code[p.pos] == b[0];
    } else {
      ShortReadBack2(code, entries, classes, globals, p);
    }
  }

  lemma PtrReadBack8(code: seq<Byte>, entries: seq<Entry>, classes: Classes, globals: seq<string>, p: Patch)
    requires p.LabelPatch? || p.FunctionPatch?
    requires 0 <= p.pos && p.pos + 8 <= |code| && p.pos % 8 == 0
    requires Resolve(entries, classes, globals, p).Ok?
    requires code[p.pos..p.pos + 8] == Resolve(entries, classes, globals, p).value
    ensures ReadsBack(code, entries, classes, globals, p)
  {
    var k := if p.LabelPatch? then LabelKey(p.name) else FunctionKey(p.name);
    PtrAt(code, p.pos, CODE_BASE + TableGet(entries, k).value);
  }

  lemma ShortReadBack2(code: seq<Byte>, entries: seq<Entry>, classes: Classes, globals: seq<string>, p: Patch)
    requires p.ClassTagPatch? || p.GlobalIdxPatch?
    requires 0 <= p.pos && p.pos + 2 <= |code| && p.pos % 2 == 0
    requires Resolve(entries, classes, globals, p).Ok?
    requires code[p.pos..p.pos + 2] == Resolve(entries, classes, globals, p).value
    ensures ReadsBack(code, entries, classes, globals, p)
  {
    if p.ClassTagPatch? {
      ShortAt(code, p.pos, TableGet(entries, ClassKey(p.cls)).value);
    } else {
      ShortAt(code, p.pos, GlobalIdx(globals, p.name).value);
    }
  }

  /** After linking, every placeholder of the first pass is read back by
      the interpreter as its resolved target. */
  lemma LinkedPatches(prog: Program)
    requires Link(prog).Ok?
    ensures CodePhase(prog.values, |prog.values|).Ok?
    ensures var L := Link(prog).value;
      var ps := CodePhase(prog.values, |prog.values|).value.patches;
      forall i :: 0 <= i < |ps| ==> ReadsBack(L.code, L.entries, L.classes, L.globals, ps[i])
  {
    hide Link, CodePhase, ApplyPatches, TableGet, Resolve, ReadsBack;
    var L := Link(prog).value;
    Phases(prog);
    var img := CodePhase(prog.values, |prog.values|).value;
    PatchesResolved(img.code, img.patches, L.entries, L.classes, L.globals, |img.patches|);
    forall i | 0 <= i < |img.patches|
      ensures ReadsBack(L.code, L.entries, L.classes, L.globals, img.patches[i])
    {
      PatchReadBack(L.code, L.entries, L.classes, L.globals, img.patches[i]);
    }
  }
}
