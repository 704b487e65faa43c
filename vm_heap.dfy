/** The heap of the virtual machine and its copying collector
    (`halloc`, `sizeof_obj`, `link_ptr`, `scan_*`, `run_gc`).

    Memory is a map from addresses to the tagged records that start
    there.  The heap is one of two equal spaces; allocation bumps a
    pointer through it, and when it runs out the collector copies every
    record reachable from the roots into the other space, leaving a
    forward ("broken heart") in place of each record it moved, and then
    scans the copies breadth first. */
module VmHeap {
  import opened Wrappers
  import opened Utils
  import opened VmCode
  import opened VmLink

  //============================================================
  // Records and spaces
  //============================================================

  /** heap_sz */
  const HEAP_SIZE := 1024 * 16

  /** The two blocks init_heap allocates.  Their addresses are arbitrary
      but disjoint, and far above every code address and stack index. */
  const SPACE_A := 0x1_0000_0000
  const SPACE_B := SPACE_A + HEAP_SIZE

  /** The tag make_forward writes. */
  const BROKEN_HEART := -1

  /** A record of the heap: VMNull, VMInt, VMArray (its length is the
      number of items), VMObj (a class tag, a parent and slots), or a
      broken heart left by the collector. */
  datatype Cell =
    | NullCell
    | IntCell(value: int)
    | ArrayCell(items: seq<int>)
    | ObjCell(tag: int, parent: int, slots: seq<int>)
    | Forward(dst: int)

  /** The first word of a record. */
  function Tag(c: Cell): int
  {
    match c
    case NullCell => NULL_TAG
    case IntCell(_) => INT_TAG
    case ArrayCell(_) => ARRAY_TAG
    case ObjCell(tag, _, _) => tag
    case Forward(_) => BROKEN_HEART
  }

  /** The references a record holds: an array's items, or an object's
      parent followed by its slots. */
  function Refs(c: Cell): seq<int>
  {
    match c
    case ArrayCell(items) => items
    case ObjCell(_, parent, slots) => [parent] + slots
    case _ => []
  }

  /** The words a record occupies: its tag, a second word (value, length,
      parent or forward; scratch for Null), then one word per item or
      slot. */
  function Words(c: Cell): nat
  {
    match c
    case ArrayCell(items) => 2 + |items|
    case ObjCell(_, _, slots) => 2 + |slots|
    case _ => 2
  }

  /** The heap: memory, heap_mem, free_mem, heap_ptr and heap_top. */
  datatype Heap = Heap(mem: map<int, Cell>, base: int, other: int, ptr: int, top: int)

  /** The allocation pointer lies in the active space. */
  predicate Within(h: Heap)
  {
    h.base <= h.ptr <= h.top
  }

  /** `g` is `h` after allocation or copying: the same spaces, the
      pointer only moved up. */
  predicate Bumps(h: Heap, g: Heap)
  {
    g.base == h.base && g.other == h.other && g.top == h.top && h.ptr <= g.ptr
    && (Within(h) ==> Within(g))
  }

  /** `a` is not an address of the active space. */
  predicate Outside(h: Heap, a: int)
  {
    !(h.base <= a < h.top)
  }

  /** Reading a record; a reference to no record is undefined in C. */
  function Deref(h: Heap, r: int): (c: Result<Cell>)
    ensures c.Ok? <==> r in h.mem
    ensures c.Ok? ==> c.value == h.mem[r]
  {
    if r in h.mem then Ok(h.mem[r]) else Fatal(UNDEFINED)
  }

  //============================================================
  // Sizes
  //============================================================

  /** The size of an object of class `tag`; tags past the classes vector
      are fatal in vector_get, and a reserved tag holds no class. */
  function ClassSize(classes: Classes, tag: int): (r: Result<int>)
    ensures r.Ok? <==> 0 <= tag < |classes| && classes[tag].Some?
    ensures r.Ok? ==> r.value == 16 + 8 * classes[tag].value.nvars
  {
    var k :- GetAt(classes, tag);
    if k.None? then Fatal(UNDEFINED) else Ok(16 + 8 * k.value.nvars)
  }

  /** sizeof_obj: dispatched on the record's tag. */
  function SizeOf(classes: Classes, c: Cell): (r: Result<int>)
    ensures r.Ok? ==> r.value >= 16 && r.value % 8 == 0
    ensures c.NullCell? || c.IntCell? || c.ArrayCell? ==> r.Ok?
  {
    match c
    case NullCell => Ok(16)
    case IntCell(_) => Ok(16)
    case ArrayCell(items) => Ok(16 + 8 * |items|)
    case _ => ClassSize(classes, Tag(c))
  }

  /** An object has as many slots as its class has variables, as OBJECT
      allocates it once the linker has patched in the class's arity. */
  predicate Fits(classes: Classes, c: Cell)
  {
    c.ObjCell? ==> 0 <= c.tag < |classes| && classes[c.tag].Some? && classes[c.tag].value.nvars == |c.slots|
  }

  /** sizeof_obj agrees with the words a record occupies. */
  lemma SizeOfWords(classes: Classes, c: Cell)
    requires Fits(classes, c) && !c.Forward?
    ensures SizeOf(classes, c) == Ok(8 * Words(c))
  {
  }

  //============================================================
  // Forwarding
  //============================================================

  /** link_ptr copied the record at `ref` to `dst`, the old allocation
      pointer, advanced the pointer by its size, left a forward behind
      and changed nothing else. */
  predicate Copied(classes: Classes, h: Heap, ref: int, g: Heap, dst: int)
  {
    ref in h.mem && dst == h.ptr && SizeOf(classes, h.mem[ref]).Ok?
    && g.ptr == h.ptr + SizeOf(classes, h.mem[ref]).value <= h.top
    && g.mem.Keys == h.mem.Keys + {dst}
    && g.mem[ref] == Forward(dst) && (ref != dst ==> g.mem[dst] == h.mem[ref])
    && forall a :: a in h.mem && a != ref && a != dst ==> g.mem[a] == h.mem[a]
  }

  /** link_ptr: the forward of a moved record, or a fresh copy.  Copying
      past the end of the space is undefined in C. */
  function LinkPtr(classes: Classes, h: Heap, ref: int): (r: Result<(Heap, int)>)
    ensures r.Ok? ==> ref in h.mem && Bumps(h, r.value.0)
    ensures ref in h.mem && h.mem[ref].Forward? ==> r == Ok((h, h.mem[ref].dst))
    ensures r.Ok? && !h.mem[ref].Forward? ==> Copied(classes, h, ref, r.value.0, r.value.1)
  {
    var c :- Deref(h, ref);
    if c.Forward? then Ok((h, c.dst))
    else
      var sz :- SizeOf(classes, c);
      if h.ptr + sz > h.top then Fatal(UNDEFINED)
      else Ok((h.(mem := h.mem[h.ptr := c][ref := Forward(h.ptr)], ptr := h.ptr + sz), h.ptr))
  }

  /** Forwarding the same reference twice makes one copy: the second call
      finds the forward and returns the same address, changing nothing. */
  lemma LinkTwice(classes: Classes, h: Heap, ref: int)
    requires LinkPtr(classes, h, ref).Ok?
    ensures var g := LinkPtr(classes, h, ref).value.0;
      LinkPtr(classes, g, ref) == Ok((g, LinkPtr(classes, h, ref).value.1))
  {
  }

  /** After link_ptr the old reference holds the forward to the address
      it returned. */
  lemma LinkLeavesForward(classes: Classes, h: Heap, ref: int)
    requires LinkPtr(classes, h, ref).Ok?
    ensures var r := LinkPtr(classes, h, ref).value;
      ref in r.0.mem && r.0.mem[ref] == Forward(r.1)
  {
  }

  /** A forward outside the active space survives a later link_ptr. */
  lemma LinkKeepsForward(classes: Classes, h: Heap, ref: int, x: int)
    requires LinkPtr(classes, h, ref).Ok? && Within(h)
    requires x in h.mem && h.mem[x].Forward? && Outside(h, x)
    ensures var g := LinkPtr(classes, h, ref).value.0; x in g.mem && g.mem[x] == h.mem[x]
  {
  }

  /** The loops of scan_globals, scan_vstack, scan_array and scan_obj:
      words `lo` to `hi - 1` of `ws` replaced, in order, by what link_ptr
      returns for them. */
  function LinkRange(classes: Classes, h: Heap, ws: seq<int>, lo: int, hi: int): (r: Result<(Heap, seq<int>)>)
    ensures r.Ok? ==> Bumps(h, r.value.0) && |r.value.1| == |ws|
    ensures r.Ok? ==> forall i :: 0 <= i < |ws| && !(lo <= i < hi) ==> r.value.1[i] == ws[i]
    ensures r.Ok? && lo < hi ==> 0 <= lo && hi <= |ws|
    decreases hi - lo
  {
    if hi <= lo then Ok((h, ws))
    else
      var w :- GetAt(ws, lo);
      var l :- LinkPtr(classes, h, w);
      LinkRange(classes, l.0, ws[lo := l.1], lo + 1, hi)
  }

  /** Every word outside the active space that a range links is replaced
      by the address its old target now forwards to. */
  lemma {:induction false} LinkRangeForwards(classes: Classes, h: Heap, ws: seq<int>, lo: int, hi: int)
    requires LinkRange(classes, h, ws, lo, hi).Ok? && Within(h)
    requires forall i :: lo <= i < hi && 0 <= i < |ws| ==> Outside(h, ws[i])
    ensures var r := LinkRange(classes, h, ws, lo, hi).value;
      forall i :: lo <= i < hi ==> ws[i] in r.0.mem && r.0.mem[ws[i]] == Forward(r.1[i])
    decreases hi - lo
  {
    if lo < hi {
      var l := LinkPtr(classes, h, ws[lo]).value;
      var ws1 := ws[lo := l.1];
      var r := LinkRange(classes, h, ws, lo, hi).value;
      assert r == LinkRange(classes, l.0, ws1, lo + 1, hi).value;
      LinkLeavesForward(classes, h, ws[lo]);
      LinkRangeForwards(classes, l.0, ws1, lo + 1, hi);
      RangeKeepsForward(classes, l.0, ws1, lo + 1, hi, ws[lo]);
      assert r.1[lo] == ws1[lo] == l.1;
      forall i | lo < i < hi
        ensures ws[i] in r.0.mem && r.0.mem[ws[i]] == Forward(r.1[i])
      {
        assert ws1[i] == ws[i];
      }
    }
  }

  /** A forward outside the active space survives a linked range whose
      words all lie outside it. */
  lemma {:induction false} RangeKeepsForward(classes: Classes, h: Heap, ws: seq<int>, lo: int, hi: int, x: int)
    requires LinkRange(classes, h, ws, lo, hi).Ok? && Within(h)
    requires x in h.mem && h.mem[x].Forward? && Outside(h, x)
    ensures var g := LinkRange(classes, h, ws, lo, hi).value.0; x in g.mem && g.mem[x] == h.mem[x]
    decreases hi - lo
  {
    if lo < hi {
      var l := LinkPtr(classes, h, ws[lo]).value;
      LinkKeepsForward(classes, h, ws[lo], x);
      RangeKeepsForward(classes, l.0, ws[lo := l.1], lo + 1, hi, x);
    }
  }

  //============================================================
  // Scanning
  //============================================================

  /** scan_array or scan_obj on the record `c` at `p`: the references it
      holds are linked and the record is written back with them.  Ints
      and Nulls hold none.  Any other tag is looked up as a class, so a
      broken heart is fatal in vector_get. */
  function ScanCell(classes: Classes, h: Heap, p: int, c: Cell): (r: Result<Heap>)
    ensures r.Ok? ==> Bumps(h, r.value)
  {
    if c.ArrayCell? then
      var l :- LinkRange(classes, h, c.items, 0, |c.items|);
      Ok(l.0.(mem := l.0.mem[p := ArrayCell(l.1)]))
    else if c.IntCell? || c.NullCell? then Ok(h)
    else
      var k :- GetAt(classes, Tag(c));
      if k.None? || !c.ObjCell? || |c.slots| < k.value.nvars then Fatal(UNDEFINED)
      else
        var l0 :- LinkPtr(classes, h, c.parent);
        var l :- LinkRange(classes, l0.0, c.slots, 0, k.value.nvars);
        Ok(l.0.(mem := l.0.mem[p := ObjCell(c.tag, l0.1, l.1)]))
  }

  /** scan_next: scan the record at `p` and step over it. */
  function ScanNext(classes: Classes, h: Heap, p: int): (r: Result<(Heap, int)>)
    ensures r.Ok? ==> p in h.mem && Bumps(h, r.value.0)
    ensures r.Ok? ==> SizeOf(classes, h.mem[p]).Ok? && r.value.1 == p + SizeOf(classes, h.mem[p]).value
  {
    var c :- Deref(h, p);
    var g :- ScanCell(classes, h, p, c);
    var c1 :- Deref(g, p);
    var sz :- SizeOf(classes, c1);
    Ok((g, p + sz))
  }

  /** The scan loop of run_gc from cursor `p`: while the cursor is below
      the allocation pointer, scan the next record.  The result holds the
      final cursor. */
  function ScanFrom(classes: Classes, h: Heap, p: int): (r: Result<(Heap, int)>)
    requires Within(h)
    ensures r.Ok? ==> Bumps(h, r.value.0) && r.value.1 >= r.value.0.ptr && r.value.1 >= p
    decreases h.top - p
  {
    if p >= h.ptr then Ok((h, p))
    else
      var s :- ScanNext(classes, h, p);
      ScanFrom(classes, s.0, s.1)
  }

  /** scan_fstack from the frame spanning `bot` to `top`: the frame's
      locals (above its saved ip and saved frame pointer) are linked, then
      the frame below is found through the saved frame pointer.  A saved
      frame pointer that does not lie below its frame stops the model;
      C would follow it and might never stop. */
  function ScanFrames(classes: Classes, h: Heap, fs: seq<int>, top: int, bot: int): (r: Result<(Heap, seq<int>)>)
    ensures r.Ok? ==> Bumps(h, r.value.0) && |r.value.1| == |fs|
    decreases top
  {
    if top <= 0 then Ok((h, fs))
    else if bot >= top then Fatal(UNDEFINED)
    else
      var l :- LinkRange(classes, h, fs, bot + 2, top);
      var next :- GetAt(l.1, bot + 1);
      ScanFrames(classes, l.0, l.1, bot, next)
  }

  /** Index `i` of the frame stack holds a local of one of the frames
      found from (`top`, `bot`) by following saved frame pointers. */
  predicate InFrames(fs: seq<int>, top: int, bot: int, i: int)
    decreases top
  {
    0 < top && bot < top
    && (bot + 2 <= i < top || (0 <= bot + 1 < |fs| && InFrames(fs, bot, fs[bot + 1], i)))
  }

  //============================================================
  // The machine registers and the collector
  //============================================================

  /** The interpreter's globals: ip, fp, the call arity n, the operand
      and frame stacks, the global values, nullobj, zeroobj and the heap. */
  datatype Machine = Machine(ip: int, fp: int, n: int, vstack: seq<int>, fstack: seq<int>, genv: seq<int>,
                             nullobj: int, zeroobj: int, heap: Heap)

  /** The spaces swap; the new active space starts empty (C leaves its
      old bytes, which nothing reads). */
  function Flip(h: Heap): (g: Heap)
    ensures g.base == h.other && g.other == h.base && g.ptr == g.base && g.top == g.base + HEAP_SIZE
    ensures forall a :: a in g.mem ==> a in h.mem && g.mem[a] == h.mem[a] && Outside(g, a)
    ensures forall a :: a in h.mem && Outside(g, a) ==> a in g.mem
  {
    Heap(map a | a in h.mem && !(h.other <= a < h.other + HEAP_SIZE) :: h.mem[a],
         h.other, h.base, h.other, h.other + HEAP_SIZE)
  }

  /** The start of run_gc: flip, then scan_globals, scan_fstack and
      scan_vstack. */
  function FlipStacks(classes: Classes, m: Machine): (r: Result<Machine>)
    ensures r.Ok? ==> Within(r.value.heap) && r.value.heap.base == m.heap.other && r.value.heap.other == m.heap.base
    ensures r.Ok? ==> r.value.heap.top == m.heap.other + HEAP_SIZE
    ensures r.Ok? ==> r.value.ip == m.ip && r.value.fp == m.fp && r.value.n == m.n
    ensures r.Ok? ==> r.value.nullobj == m.nullobj && r.value.zeroobj == m.zeroobj
    ensures r.Ok? ==> |r.value.vstack| == |m.vstack| && |r.value.fstack| == |m.fstack| && |r.value.genv| == |m.genv|
  {
    var h0 := Flip(m.heap);
    var g :- LinkRange(classes, h0, m.genv, 0, |m.genv|);
    var f :- ScanFrames(classes, g.0, m.fstack, |m.fstack|, m.fp);
    var v :- LinkRange(classes, f.0, m.vstack, 0, |m.vstack|);
    Ok(m.(vstack := v.1, fstack := f.1, genv := g.1, heap := v.0))
  }

  /** The roots of run_gc: the stacks and globals, then nullobj and
      zeroobj. */
  function Roots(classes: Classes, m: Machine): (r: Result<Machine>)
    ensures r.Ok? ==> Within(r.value.heap) && r.value.heap.base == m.heap.other && r.value.heap.other == m.heap.base
    ensures r.Ok? ==> r.value.heap.top == m.heap.other + HEAP_SIZE
    ensures r.Ok? ==> r.value.ip == m.ip && r.value.fp == m.fp && r.value.n == m.n
    ensures r.Ok? ==> |r.value.vstack| == |m.vstack| && |r.value.fstack| == |m.fstack| && |r.value.genv| == |m.genv|
  {
    var s :- FlipStacks(classes, m);
    var a :- LinkPtr(classes, s.heap, m.nullobj);
    var b :- LinkPtr(classes, a.0, m.zeroobj);
    Ok(s.(nullobj := a.1, zeroobj := b.1, heap := b.0))
  }

  /** run_gc: the roots, then the scan from the start of the new space. */
  function RunGc(classes: Classes, m: Machine): (r: Result<Machine>)
    ensures r.Ok? ==> Within(r.value.heap) && r.value.heap.base == m.heap.other && r.value.heap.other == m.heap.base
    ensures r.Ok? ==> r.value.heap.top == r.value.heap.base + HEAP_SIZE
    ensures r.Ok? ==> r.value.ip == m.ip && r.value.fp == m.fp && r.value.n == m.n
    ensures r.Ok? ==> |r.value.vstack| == |m.vstack| && |r.value.fstack| == |m.fstack| && |r.value.genv| == |m.genv|
  {
    var t :- Roots(classes, m);
    var s :- ScanFrom(classes, t.heap, t.heap.base);
    Ok(t.(heap := s.0))
  }

  //============================================================
  // Allocation
  //============================================================

  const OUT_OF_MEMORY := "Out of Memory."

  /** `sz` bytes taken at the allocation pointer. */
  function Reserve(m: Machine, sz: int): (Machine, int)
  {
    (m.(heap := m.heap.(ptr := m.heap.ptr + sz)), m.heap.ptr)
  }

  /** halloc: room for `sz` bytes at the allocation pointer, collecting
      once when the space is short. */
  function Halloc(classes: Classes, m: Machine, sz: int): (r: Result<(Machine, int)>)
    ensures m.heap.ptr + sz <= m.heap.top ==> r == Ok(Reserve(m, sz))
    ensures m.heap.ptr + sz > m.heap.top ==>
      r == match RunGc(classes, m)
           case Fatal(msg) => Fatal(msg)
           case Ok(g) => if g.heap.ptr + sz <= g.heap.top then Ok(Reserve(g, sz)) else Fatal(OUT_OF_MEMORY)
    ensures r.Ok? ==> r.value.0.heap.ptr == r.value.1 + sz <= r.value.0.heap.top
  {
    if m.heap.ptr + sz > m.heap.top then
      var g :- RunGc(classes, m);
      if g.heap.ptr + sz > g.heap.top then Fatal(OUT_OF_MEMORY) else Ok(Reserve(g, sz))
    else Ok(Reserve(m, sz))
  }

  //============================================================
  // What a collection guarantees
  //============================================================

  predicate RefsOutside(h: Heap, c: Cell)
  {
    forall i :: 0 <= i < |Refs(c)| ==> Outside(h, Refs(c)[i])
  }

  /** No record outside the active space, other than a forward, refers
      into it. */
  predicate Closed(h: Heap)
  {
    forall a :: a in h.mem && Outside(h, a) && !h.mem[a].Forward? ==> RefsOutside(h, h.mem[a])
  }

  /** The records from `p` to `q` lie end to end and refer only outside
      the active space: copies the scan has not reached yet. */
  predicate Pending(classes: Classes, h: Heap, p: int, q: int)
    decreases q - p
  {
    p == q
    || (p < q && p in h.mem && RefsOutside(h, h.mem[p]) && SizeOf(classes, h.mem[p]).Ok?
        && Pending(classes, h, p + SizeOf(classes, h.mem[p]).value, q))
  }

  /** Nothing in the machine refers into its free space: no root, and no
      record outside that space, none of which is a forward (the forwards
      of the last collection lie in what is now the free space). */
  predicate NoneInto(m: Machine)
  {
    var free := Flip(m.heap);
    (forall i :: 0 <= i < |m.genv| ==> Outside(free, m.genv[i]))
    && (forall i :: 0 <= i < |m.fstack| ==> Outside(free, m.fstack[i]))
    && (forall i :: 0 <= i < |m.vstack| ==> Outside(free, m.vstack[i]))
    && Outside(free, m.nullobj) && Outside(free, m.zeroobj)
    && forall a :: a in m.heap.mem && Outside(free, a) ==> !m.heap.mem[a].Forward? && RefsOutside(free, m.heap.mem[a])
  }

  lemma {:induction false} PendingFrame(classes: Classes, h: Heap, g: Heap, p: int, q: int)
    requires Pending(classes, h, p, q) && g.base == h.base && g.top == h.top
    requires forall a :: p <= a < q && a in h.mem ==> a in g.mem && g.mem[a] == h.mem[a]
    ensures Pending(classes, g, p, q)
    decreases q - p
  {
    if p != q {
      PendingFrame(classes, h, g, p + SizeOf(classes, h.mem[p]).value, q);
    }
  }

  lemma {:induction false} PendingSnoc(classes: Classes, h: Heap, p: int, q: int)
    requires Pending(classes, h, p, q) && q in h.mem && RefsOutside(h, h.mem[q]) && SizeOf(classes, h.mem[q]).Ok?
    ensures Pending(classes, h, p, q + SizeOf(classes, h.mem[q]).value)
    decreases q - p
  {
    var e := q + SizeOf(classes, h.mem[q]).value;
    if p == q {
      assert Pending(classes, h, e, e);
    } else {
      PendingSnoc(classes, h, p + SizeOf(classes, h.mem[p]).value, q);
    }
  }

  /** A copy lands at the end of the pending records. */
  lemma LinkPending(classes: Classes, h: Heap, ref: int, p: int)
    requires LinkPtr(classes, h, ref).Ok? && Within(h) && Closed(h) && Outside(h, ref)
    requires h.base <= p && Pending(classes, h, p, h.ptr)
    ensures var g := LinkPtr(classes, h, ref).value.0; Closed(g) && Pending(classes, g, p, g.ptr)
  {
    var g := LinkPtr(classes, h, ref).value.0;
    if !h.mem[ref].Forward? {
      hide Pending;
      PendingFrame(classes, h, g, p, h.ptr);
      assert g.mem[h.ptr] == h.mem[ref];
      PendingSnoc(classes, g, p, h.ptr);
    }
  }

  lemma {:induction false} RangePending(classes: Classes, h: Heap, ws: seq<int>, lo: int, hi: int, p: int)
    requires LinkRange(classes, h, ws, lo, hi).Ok? && Within(h) && Closed(h)
    requires forall i :: lo <= i < hi && 0 <= i < |ws| ==> Outside(h, ws[i])
    requires h.base <= p && Pending(classes, h, p, h.ptr)
    ensures var g := LinkRange(classes, h, ws, lo, hi).value.0; Closed(g) && Pending(classes, g, p, g.ptr)
    decreases hi - lo
  {
    if lo < hi {
      var l := LinkPtr(classes, h, ws[lo]).value;
      LinkPending(classes, h, ws[lo], p);
      var ws1 := ws[lo := l.1];
      assert forall i :: lo + 1 <= i < hi && 0 <= i < |ws1| ==> ws1[i] == ws[i];
      RangePending(classes, l.0, ws1, lo + 1, hi, p);
    }
  }

  /** Scanning a record inside the active space keeps the records from `q`
      on pending, with the copies it made appended. */
  lemma CellPending(classes: Classes, h: Heap, p: int, c: Cell, q: int)
    requires ScanCell(classes, h, p, c).Ok? && Within(h) && Closed(h) && RefsOutside(h, c)
    requires h.base <= p < q && Pending(classes, h, q, h.ptr)
    ensures var g := ScanCell(classes, h, p, c).value; Closed(g) && Pending(classes, g, q, g.ptr)
  {
    if c.ArrayCell? {
      ArrayPending(classes, h, p, c, q);
    } else if c.ObjCell? {
      ObjectPending(classes, h, p, c, q);
    }
  }

  lemma ArrayPending(classes: Classes, h: Heap, p: int, c: Cell, q: int)
    requires c.ArrayCell? && ScanCell(classes, h, p, c).Ok? && Within(h) && Closed(h) && RefsOutside(h, c)
    requires h.base <= p < q && Pending(classes, h, q, h.ptr)
    ensures var g := ScanCell(classes, h, p, c).value; Closed(g) && Pending(classes, g, q, g.ptr)
  {
    hide Pending, LinkPtr;
    assert Refs(c) == c.items;
    RangePending(classes, h, c.items, 0, |c.items|, q);
    var l := LinkRange(classes, h, c.items, 0, |c.items|).value;
    PendingFrame(classes, l.0, l.0.(mem := l.0.mem[p := ArrayCell(l.1)]), q, l.0.ptr);
  }

  lemma ObjectPending(classes: Classes, h: Heap, p: int, c: Cell, q: int)
    requires c.ObjCell? && ScanCell(classes, h, p, c).Ok? && Within(h) && Closed(h) && RefsOutside(h, c)
    requires h.base <= p < q && Pending(classes, h, q, h.ptr)
    ensures var g := ScanCell(classes, h, p, c).value; Closed(g) && Pending(classes, g, q, g.ptr)
  {
    hide Pending, SizeOf;
    var k := classes[c.tag].value;
    assert Refs(c)[0] == c.parent;
    LinkPending(classes, h, c.parent, q);
    var l0 := LinkPtr(classes, h, c.parent).value;
    assert forall i :: 0 <= i < |c.slots| ==> c.slots[i] == Refs(c)[i + 1];
    RangePending(classes, l0.0, c.slots, 0, k.nvars, q);
    var l := LinkRange(classes, l0.0, c.slots, 0, k.nvars).value;
    PendingFrame(classes, l.0, l.0.(mem := l.0.mem[p := ObjCell(c.tag, l0.1, l.1)]), q, l.0.ptr);
  }

  /** Scanning the first pending record leaves the rest pending, with the
      copies it made appended. */
  lemma ScanPending(classes: Classes, h: Heap, p: int)
    requires ScanNext(classes, h, p).Ok? && Within(h) && Closed(h)
    requires h.base <= p < h.ptr && Pending(classes, h, p, h.ptr)
    ensures var s := ScanNext(classes, h, p).value; Closed(s.0) && Pending(classes, s.0, s.1, s.0.ptr)
  {
    var c := h.mem[p];
    var q := p + SizeOf(classes, c).value;
    assert RefsOutside(h, c) && Pending(classes, h, q, h.ptr);
    hide Pending, ScanCell;
    CellPending(classes, h, p, c, q);
  }

  /** The scan loop stops exactly at the allocation pointer. */
  lemma {:induction false} ScanToEnd(classes: Classes, h: Heap, p: int)
    requires Within(h) && ScanFrom(classes, h, p).Ok? && Closed(h)
    requires h.base <= p && Pending(classes, h, p, h.ptr)
    ensures var r := ScanFrom(classes, h, p).value; r.1 == r.0.ptr
    decreases h.top - p
  {
    if p < h.ptr {
      var s := ScanNext(classes, h, p).value;
      ScanPending(classes, h, p);
      ScanToEnd(classes, s.0, s.1);
    }
  }

  //------------------------------------------------------------
  // Forwards survive, and point into the used part of the space
  //------------------------------------------------------------

  /** Every forward `h` holds outside its active space is still in `g`. */
  predicate Keeps(h: Heap, g: Heap)
  {
    forall x :: x in h.mem && h.mem[x].Forward? && Outside(h, x) ==> x in g.mem && g.mem[x] == h.mem[x]
  }

  /** Every forward points to a copy already made in the active space. */
  predicate ForwardsInto(h: Heap)
  {
    forall a :: a in h.mem && h.mem[a].Forward? ==> h.base <= h.mem[a].dst < h.ptr
  }

  /** The record once at `from` now forwards to `to`. */
  predicate Moved(h: Heap, from: int, to: int)
  {
    from in h.mem && h.mem[from] == Forward(to)
  }

  lemma KeepsTrans(a: Heap, b: Heap, c: Heap)
    requires Keeps(a, b) && Keeps(b, c) && a.base == b.base && a.top == b.top
    ensures Keeps(a, c)
  {
  }

  lemma LinkKeeps(classes: Classes, h: Heap, ref: int)
    requires LinkPtr(classes, h, ref).Ok? && Within(h)
    ensures var g := LinkPtr(classes, h, ref).value.0; Keeps(h, g) && (ForwardsInto(h) ==> ForwardsInto(g))
  {
    var g := LinkPtr(classes, h, ref).value.0;
    forall x | x in h.mem && h.mem[x].Forward? && Outside(h, x)
      ensures x in g.mem && g.mem[x] == h.mem[x]
    {
      LinkKeepsForward(classes, h, ref, x);
    }
  }

  lemma {:induction false} RangeKeeps(classes: Classes, h: Heap, ws: seq<int>, lo: int, hi: int)
    requires LinkRange(classes, h, ws, lo, hi).Ok? && Within(h)
    ensures var g := LinkRange(classes, h, ws, lo, hi).value.0; Keeps(h, g) && (ForwardsInto(h) ==> ForwardsInto(g))
    decreases hi - lo
  {
    if lo < hi {
      var l := LinkPtr(classes, h, ws[lo]).value;
      LinkKeeps(classes, h, ws[lo]);
      RangeKeeps(classes, l.0, ws[lo := l.1], lo + 1, hi);
      KeepsTrans(h, l.0, LinkRange(classes, h, ws, lo, hi).value.0);
    }
  }

  lemma {:induction false} FramesKeep(classes: Classes, h: Heap, fs: seq<int>, top: int, bot: int)
    requires ScanFrames(classes, h, fs, top, bot).Ok? && Within(h)
    ensures var g := ScanFrames(classes, h, fs, top, bot).value.0; Keeps(h, g) && (ForwardsInto(h) ==> ForwardsInto(g))
    decreases top
  {
    if 0 < top {
      var l := LinkRange(classes, h, fs, bot + 2, top).value;
      RangeKeeps(classes, h, fs, bot + 2, top);
      FramesKeep(classes, l.0, l.1, bot, l.1[bot + 1]);
      KeepsTrans(h, l.0, ScanFrames(classes, h, fs, top, bot).value.0);
    }
  }

  lemma CellKeeps(classes: Classes, h: Heap, p: int, c: Cell)
    requires ScanCell(classes, h, p, c).Ok? && Within(h) && h.base <= p < h.top && !c.Forward?
    ensures var g := ScanCell(classes, h, p, c).value; Keeps(h, g) && (ForwardsInto(h) ==> ForwardsInto(g))
  {
    if c.ArrayCell? {
      RangeKeeps(classes, h, c.items, 0, |c.items|);
    } else if c.ObjCell? {
      LinkKeeps(classes, h, c.parent);
      var l0 := LinkPtr(classes, h, c.parent).value;
      var k := classes[c.tag].value;
      RangeKeeps(classes, l0.0, c.slots, 0, k.nvars);
      KeepsTrans(h, l0.0, LinkRange(classes, l0.0, c.slots, 0, k.nvars).value.0);
    }
  }

  lemma {:induction false} ScanKeeps(classes: Classes, h: Heap, p: int)
    requires Within(h) && ScanFrom(classes, h, p).Ok? && h.base <= p
    ensures var g := ScanFrom(classes, h, p).value.0; Keeps(h, g) && (ForwardsInto(h) ==> ForwardsInto(g))
    decreases h.top - p
  {
    if p < h.ptr {
      var c := h.mem[p];
      var s := ScanNext(classes, h, p).value;
      CellKeeps(classes, h, p, c);
      ScanKeeps(classes, s.0, s.1);
      KeepsTrans(h, s.0, ScanFrom(classes, h, p).value.0);
    }
  }

  //------------------------------------------------------------
  // The frames
  //------------------------------------------------------------

  lemma {:induction false} InFramesBelow(fs: seq<int>, top: int, bot: int, i: int)
    requires InFrames(fs, top, bot, i)
    ensures i < top
    decreases top
  {
    if !(bot + 2 <= i < top) {
      InFramesBelow(fs, bot, fs[bot + 1], i);
    }
  }

  /** Which words are locals depends only on the words up to the top. */
  lemma {:induction false} InFramesSame(fs: seq<int>, gs: seq<int>, top: int, bot: int, i: int)
    requires |fs| == |gs| && forall j :: 0 <= j <= top && j < |fs| ==> fs[j] == gs[j]
    ensures InFrames(fs, top, bot, i) == InFrames(gs, top, bot, i)
    decreases top
  {
    if 0 < top && bot < top && 0 <= bot + 1 < |fs| {
      InFramesSame(fs, gs, bot, fs[bot + 1], i);
    }
  }

  /** scan_fstack forwards exactly the locals of the frames it walks: each
      such word is replaced by the address its record was moved to, and
      every other word is left as it was. */
  lemma {:induction false} FramesForward(classes: Classes, h: Heap, fs: seq<int>, top: int, bot: int)
    requires ScanFrames(classes, h, fs, top, bot).Ok? && Within(h)
    requires forall i :: 0 <= i < top && i < |fs| ==> Outside(h, fs[i])
    ensures var r := ScanFrames(classes, h, fs, top, bot).value;
      forall i :: 0 <= i < |fs| ==>
        if InFrames(fs, top, bot, i) then Moved(r.0, fs[i], r.1[i]) else r.1[i] == fs[i]
    decreases top
  {
    if 0 < top {
      var r := ScanFrames(classes, h, fs, top, bot).value;
      var l := LinkRange(classes, h, fs, bot + 2, top).value;
      var next := l.1[bot + 1];
      assert r == ScanFrames(classes, l.0, l.1, bot, next).value;
      LinkRangeForwards(classes, h, fs, bot + 2, top);
      FramesForward(classes, l.0, l.1, bot, next);
      FramesKeep(classes, l.0, l.1, bot, next);
      forall i | 0 <= i < |fs|
        ensures if InFrames(fs, top, bot, i) then Moved(r.0, fs[i], r.1[i]) else r.1[i] == fs[i]
      {
        if bot + 2 <= i < top {
          if InFrames(l.1, bot, next, i) {
            InFramesBelow(l.1, bot, next, i);
          }
        } else {
          InFramesSame(fs, l.1, bot, next, i);
        }
      }
    }
  }

  lemma {:induction false} FramesPending(classes: Classes, h: Heap, fs: seq<int>, top: int, bot: int, p: int)
    requires ScanFrames(classes, h, fs, top, bot).Ok? && Within(h) && Closed(h)
    requires forall i :: 0 <= i < top && i < |fs| ==> Outside(h, fs[i])
    requires h.base <= p && Pending(classes, h, p, h.ptr)
    ensures var g := ScanFrames(classes, h, fs, top, bot).value.0; Closed(g) && Pending(classes, g, p, g.ptr)
    decreases top
  {
    if 0 < top {
      var l := LinkRange(classes, h, fs, bot + 2, top).value;
      RangePending(classes, h, fs, bot + 2, top, p);
      FramesPending(classes, l.0, l.1, bot, l.1[bot + 1], p);
    }
  }

  //------------------------------------------------------------
  // The collector
  //------------------------------------------------------------

  /** Each word of `ws` was replaced by the word at the same index of
      `ws2`, the address its record was moved to. */
  predicate Forwarded(h: Heap, ws: seq<int>, ws2: seq<int>)
  {
    |ws2| == |ws| && forall i :: 0 <= i < |ws| ==> Moved(h, ws[i], ws2[i])
  }

  /** The locals of the frames reached from `fp` were replaced by the
      addresses their records were moved to; the other words were kept. */
  predicate FramesMoved(h: Heap, fs: seq<int>, fs2: seq<int>, fp: int)
  {
    |fs2| == |fs|
    && forall i :: 0 <= i < |fs| ==>
         if InFrames(fs, |fs|, fp, i) then Moved(h, fs[i], fs2[i]) else fs2[i] == fs[i]
  }

  predicate AllOutside(h: Heap, ws: seq<int>)
  {
    forall i :: 0 <= i < |ws| ==> Outside(h, ws[i])
  }

  lemma ForwardedKept(h: Heap, g: Heap, ws: seq<int>, ws2: seq<int>)
    requires Forwarded(h, ws, ws2) && AllOutside(h, ws) && Keeps(h, g)
    ensures Forwarded(g, ws, ws2)
  {
  }

  lemma FramesMovedKept(h: Heap, g: Heap, fs: seq<int>, fs2: seq<int>, fp: int)
    requires FramesMoved(h, fs, fs2, fp) && AllOutside(h, fs) && Keeps(h, g)
    ensures FramesMoved(g, fs, fs2, fp)
  {
  }

  /** What the flip starts the collection from, when nothing referred
      into the free space. */
  lemma FlipStart(m: Machine)
    requires NoneInto(m)
    ensures var h0 := Flip(m.heap);
      Within(h0) && ForwardsInto(h0) && Closed(h0)
      && AllOutside(h0, m.genv) && AllOutside(h0, m.fstack) && AllOutside(h0, m.vstack)
      && Outside(h0, m.nullobj) && Outside(h0, m.zeroobj)
  {
  }

  /** The stacks and globals after the flip: every global, every operand
      and every local of the frames reached from fp is replaced by the
      address its record was moved to; the other frame words (saved ips
      and frame pointers) are left as they were. */
  lemma StacksMoved(classes: Classes, m: Machine)
    requires NoneInto(m) && FlipStacks(classes, m).Ok?
    ensures var t := FlipStacks(classes, m).value;
      ForwardsInto(t.heap) && Forwarded(t.heap, m.genv, t.genv) && Forwarded(t.heap, m.vstack, t.vstack)
      && FramesMoved(t.heap, m.fstack, t.fstack, m.fp)
  {
    var h0 := Flip(m.heap);
    var g := LinkRange(classes, h0, m.genv, 0, |m.genv|).value;
    var f := ScanFrames(classes, g.0, m.fstack, |m.fstack|, m.fp).value;
    var v := LinkRange(classes, f.0, m.vstack, 0, |m.vstack|).value;
    FlipStart(m);
    hide Flip, LinkRange, ScanFrames, InFrames, Forwarded, FramesMoved, AllOutside, Keeps, NoneInto, Copied, ForwardsInto, Closed, Moved;
    GlobalsMoved(classes, h0, m.genv);
    RangeKeeps(classes, h0, m.genv, 0, |m.genv|);
    FramesStepMoved(classes, g.0, m.fstack, m.fp);
    FramesKeep(classes, g.0, m.fstack, |m.fstack|, m.fp);
    GlobalsMoved(classes, f.0, m.vstack);
    RangeKeeps(classes, f.0, m.vstack, 0, |m.vstack|);
    KeepsTrans(g.0, f.0, v.0);
    ForwardedKept(g.0, v.0, m.genv, g.1);
    FramesMovedKept(f.0, v.0, m.fstack, f.1, m.fp);
  }

  /** The roots of run_gc, nullobj and zeroobj included, are all moved. */
  lemma RootsMoved(classes: Classes, m: Machine)
    requires NoneInto(m) && Roots(classes, m).Ok?
    ensures var t := Roots(classes, m).value;
      ForwardsInto(t.heap) && Forwarded(t.heap, m.genv, t.genv) && Forwarded(t.heap, m.vstack, t.vstack)
      && FramesMoved(t.heap, m.fstack, t.fstack, m.fp)
      && Moved(t.heap, m.nullobj, t.nullobj) && Moved(t.heap, m.zeroobj, t.zeroobj)
  {
    var s := FlipStacks(classes, m).value;
    var a := LinkPtr(classes, s.heap, m.nullobj).value;
    var b := LinkPtr(classes, a.0, m.zeroobj).value;
    StacksMoved(classes, m);
    FlipStart(m);
    hide Flip, FlipStacks, LinkPtr, InFrames, Forwarded, FramesMoved, Keeps, NoneInto, Copied, ForwardsInto, Closed;
    LinkLeavesForward(classes, s.heap, m.nullobj);
    LinkKeeps(classes, s.heap, m.nullobj);
    LinkLeavesForward(classes, a.0, m.zeroobj);
    LinkKeeps(classes, a.0, m.zeroobj);
    KeepsTrans(s.heap, a.0, b.0);
    ForwardedKept(s.heap, b.0, m.genv, s.genv);
    FramesMovedKept(s.heap, b.0, m.fstack, s.fstack, m.fp);
    ForwardedKept(s.heap, b.0, m.vstack, s.vstack);
  }

  /** A whole sequence of words linked: each is forwarded. */
  lemma GlobalsMoved(classes: Classes, h: Heap, ws: seq<int>)
    requires LinkRange(classes, h, ws, 0, |ws|).Ok? && Within(h) && AllOutside(h, ws)
    ensures var r := LinkRange(classes, h, ws, 0, |ws|).value; Forwarded(r.0, ws, r.1)
  {
    LinkRangeForwards(classes, h, ws, 0, |ws|);
  }

  lemma FramesStepMoved(classes: Classes, h: Heap, fs: seq<int>, fp: int)
    requires ScanFrames(classes, h, fs, |fs|, fp).Ok? && Within(h) && AllOutside(h, fs)
    ensures var r := ScanFrames(classes, h, fs, |fs|, fp).value; FramesMoved(r.0, fs, r.1, fp)
  {
    FramesForward(classes, h, fs, |fs|, fp);
  }

  lemma StacksPending(classes: Classes, m: Machine)
    requires NoneInto(m) && FlipStacks(classes, m).Ok?
    ensures var t := FlipStacks(classes, m).value; Closed(t.heap) && Pending(classes, t.heap, t.heap.base, t.heap.ptr)
  {
    var h0 := Flip(m.heap);
    var g := LinkRange(classes, h0, m.genv, 0, |m.genv|).value;
    var f := ScanFrames(classes, g.0, m.fstack, |m.fstack|, m.fp).value;
    FlipStart(m);
    assert Pending(classes, h0, h0.base, h0.ptr);
    hide Flip, LinkRange, ScanFrames, LinkPtr, NoneInto;
    RangePending(classes, h0, m.genv, 0, |m.genv|, h0.base);
    FramesPending(classes, g.0, m.fstack, |m.fstack|, m.fp, h0.base);
    RangePending(classes, f.0, m.vstack, 0, |m.vstack|, h0.base);
  }

  /** The scan loop of run_gc ends exactly at the allocation pointer: every
      record copied has been scanned. */
  lemma GcScansToEnd(classes: Classes, m: Machine)
    requires NoneInto(m) && RunGc(classes, m).Ok?
    ensures var t := Roots(classes, m).value;
      ScanFrom(classes, t.heap, t.heap.base).Ok?
      && ScanFrom(classes, t.heap, t.heap.base).value.1 == RunGc(classes, m).value.heap.ptr
  {
    var s := FlipStacks(classes, m).value;
    var a := LinkPtr(classes, s.heap, m.nullobj).value;
    var t := Roots(classes, m).value;
    StacksPending(classes, m);
    FlipStart(m);
    hide Flip, Roots, FlipStacks, LinkPtr, ScanFrom, NoneInto;
    LinkPending(classes, s.heap, m.nullobj, s.heap.base);
    LinkPending(classes, a.0, m.zeroobj, s.heap.base);
    ScanToEnd(classes, t.heap, t.heap.base);
  }

  /** run_gc moves every root into the used part of the new space: each
      is replaced by the address its record was copied to, and the old
      record forwards there. */
  lemma GcMovesRoots(classes: Classes, m: Machine)
    requires NoneInto(m) && RunGc(classes, m).Ok?
    ensures var r := RunGc(classes, m).value;
      Forwarded(r.heap, m.genv, r.genv) && Forwarded(r.heap, m.vstack, r.vstack)
      && FramesMoved(r.heap, m.fstack, r.fstack, m.fp)
      && Moved(r.heap, m.nullobj, r.nullobj) && Moved(r.heap, m.zeroobj, r.zeroobj)
      && ForwardsInto(r.heap)
  {
    var t := Roots(classes, m).value;
    RootsMoved(classes, m);
    assert AllOutside(t.heap, m.genv) && AllOutside(t.heap, m.fstack) && AllOutside(t.heap, m.vstack);
    hide Roots, InFrames, Forwarded, FramesMoved, AllOutside, NoneInto;
    ScanKeeps(classes, t.heap, t.heap.base);
    var r := RunGc(classes, m).value;
    ForwardedKept(t.heap, r.heap, m.genv, t.genv);
    ForwardedKept(t.heap, r.heap, m.vstack, t.vstack);
    FramesMovedKept(t.heap, r.heap, m.fstack, t.fstack, m.fp);
  }

  /** Every address a forward holds lies in the used part of the active
      space; so after run_gc every root does. */
  lemma MovedInto(h: Heap, from: int, to: int)
    requires Moved(h, from, to) && ForwardsInto(h)
    ensures h.base <= to < h.ptr
  {
  }
}
