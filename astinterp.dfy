/** The tree-walking interpreter of Feeny.

    Objects live in a heap arena indexed by `Ref`: index 0 holds the shared
    null object and index 1 the shared zero that stands for true.  An
    environment object holds its parent and its entries (variables and
    functions, searched first to last); the global environment is the
    parent of every call frame.  Variable stores, entry additions and array
    stores update the arena in place.

    Printing is kept as the sequence of characters and objects printed, in
    order; the text an object prints as is not modelled. */
module AstEval {
  import opened Wrappers
  import opened Bytes
  import opened Utils
  import opened Ast

  type Ref = nat

  /** nullobj and zeroobj of init_eval. */
  const NULL_REF: Ref := 0
  const ZERO_REF: Ref := 1

  const OUT_OF_FUEL := "Out of fuel."
  const PRINTF_ARGS := "Incorrect number of arguments to printf statement."

  datatype Entry =
    | VarEntry(name: string, value: Ref)
    | CodeEntry(name: string, args: seq<string>, body: ScopeStmt)

  datatype Obj =
    | NullObj
    | IntObj(value: int)
    | ArrayObj(length: int, items: seq<Ref>)
    | EnvObj(parent: Ref, entries: seq<Entry>)

  datatype Printed = Text(c: char) | Shown(obj: Ref)

  //============================================================
  // The arena
  //============================================================

  predicate EntryOk(en: Entry, n: nat)
  {
    en.VarEntry? ==> en.value < n
  }

  /** Object `o` at index `i` of an arena of `n` objects: its references
      are in the arena, an array holds as many items as its length says
      (none when it is negative), and an environment's parent is older
      than the environment. */
  predicate ObjOk(o: Obj, i: nat, n: nat)
  {
    match o
    case NullObj => true
    case IntObj(_) => true
    case ArrayObj(len, items) =>
      |items| == (if len < 0 then 0 else len) && forall k :: 0 <= k < |items| ==> items[k] < n
    case EnvObj(p, es) => p < i && forall k :: 0 <= k < |es| ==> EntryOk(es[k], n)
  }

  predicate HeapOk(h: seq<Obj>)
  {
    |h| >= 2 && h[NULL_REF] == NullObj && h[ZERO_REF] == IntObj(0)
    && forall i :: 0 <= i < |h| ==> ObjOk(h[i], i, |h|)
  }

  /** What no update changes: an object's tag, an int's value, an array's
      length and an environment's parent. */
  datatype Kind = KNull | KInt(value: int) | KArray(length: int) | KEnv(parent: Ref)

  function KindOf(o: Obj): Kind
  {
    match o
    case NullObj => KNull
    case IntObj(v) => KInt(v)
    case ArrayObj(len, _) => KArray(len)
    case EnvObj(p, _) => KEnv(p)
  }

  /** `h1` is `h0` after allocations and in-place updates. */
  ghost predicate Extends(h0: seq<Obj>, h1: seq<Obj>)
  {
    |h0| <= |h1| && forall i :: 0 <= i < |h0| ==> KindOf(h0[i]) == KindOf(h1[i])
  }

  lemma ObjOkGrow(o: Obj, i: nat, n: nat, m: nat)
    requires ObjOk(o, i, n) && n <= m
    ensures ObjOk(o, i, m)
  {
  }

  lemma HeapOkAppend(h: seq<Obj>, o: Obj)
    requires HeapOk(h) && ObjOk(o, |h|, |h| + 1)
    ensures HeapOk(h + [o])
  {
    forall i | 0 <= i < |h|
      ensures ObjOk((h + [o])[i], i, |h| + 1)
    {
      ObjOkGrow(h[i], i, |h|, |h| + 1);
    }
  }

  lemma ArrayItems(h: seq<Obj>, a: Ref)
    requires HeapOk(h) && a < |h| && h[a].ArrayObj?
    ensures |h[a].items| == (if h[a].length < 0 then 0 else h[a].length)
    ensures forall k :: 0 <= k < |h[a].items| ==> h[a].items[k] < |h|
  {
    assert ObjOk(h[a], a, |h|);
  }

  lemma HeapOkUpdate(h: seq<Obj>, j: nat, o: Obj)
    requires HeapOk(h) && 2 <= j < |h| && ObjOk(o, j, |h|)
    ensures HeapOk(h[j := o])
  {
  }

  //============================================================
  // Environments
  //============================================================

  /** lookup_frame: the first entry of a frame with the name. */
  function LookupFrame(es: seq<Entry>, name: string): (r: Option<nat>)
    ensures r.Some? ==> r.value < |es| && Same(es[r.value].name, name)
                        && forall k :: 0 <= k < r.value ==> !Same(es[k].name, name)
    ensures r.None? ==> forall k :: 0 <= k < |es| ==> !Same(es[k].name, name)
  {
    if es == [] then None
    else if Same(es[0].name, name) then Some(0)
    else match LookupFrame(es[1..], name)
      case Some(k) => Some(k + 1)
      case None => None
  }

  /** Searching two frames one after the other finds what the first
      holds, or else what the second holds. */
  lemma {:induction false} LookupFrameAppend(a: seq<Entry>, b: seq<Entry>, name: string)
    ensures LookupFrame(a + b, name)
            == if LookupFrame(a, name).Some? then LookupFrame(a, name)
               else match LookupFrame(b, name)
                 case Some(k) => Some(|a| + k)
                 case None => None
  {
    hide Same, CString;
    if a == [] {
      assert [] + b == b;
    } else {
      assert (a + b)[0] == a[0];
      assert (a + b)[1..] == a[1..] + b;
      LookupFrameAppend(a[1..], b, name);
    }
  }

  /** The entries visible from `env`: its own frame, then its parent's,
      up the chain to the first object that is not an environment. */
  function Scope(h: seq<Obj>, env: Ref): seq<Entry>
    requires HeapOk(h) && env < |h|
    decreases env
  {
    if h[env].EnvObj? then
      assert ObjOk(h[env], env, |h|);
      h[env].entries + Scope(h, h[env].parent)
    else []
  }

  /** The entry a name denotes from `env`: the first visible one. */
  function Visible(h: seq<Obj>, env: Ref, name: string): Option<Entry>
    requires HeapOk(h) && env < |h|
  {
    match LookupFrame(Scope(h, env), name)
    case Some(k) => Some(Scope(h, env)[k])
    case None => None
  }

  /** What a name denotes from an environment: the frame's own entry,
      or else what it denotes from the parent. */
  lemma VisibleStep(h: seq<Obj>, env: Ref, name: string)
    requires HeapOk(h) && IsEnv(h, env)
    ensures h[env].parent < env
    ensures Visible(h, env, name)
            == match LookupFrame(h[env].entries, name)
               case Some(k) => Some(h[env].entries[k])
               case None => Visible(h, h[env].parent, name)
  {
    hide Same, CString, LookupFrame;
    assert ObjOk(h[env], env, |h|);
    LookupFrameAppend(h[env].entries, Scope(h, h[env].parent), name);
  }

  /** lookup_env: the environment and the index of the entry the name
      denotes, searching each frame before its parent. */
  function LookupEnv(h: seq<Obj>, env: Ref, name: string): (r: Result<(Ref, nat)>)
    requires HeapOk(h) && env < |h|
    ensures r.Ok? <==> Visible(h, env, name).Some?
    ensures r.Ok? ==> r.value.0 <= env && h[r.value.0].EnvObj? && r.value.1 < |h[r.value.0].entries|
                      && Some(h[r.value.0].entries[r.value.1]) == Visible(h, env, name)
    decreases env
  {
    if h[env].EnvObj? then
      VisibleStep(h, env, name);
      match LookupFrame(h[env].entries, name)
      case Some(k) => Ok((env, k))
      case None => LookupEnv(h, h[env].parent, name)
    else Fatal("No entry for " + name)
  }

  /** lookup_fn: the entry must be a function. */
  function LookupFn(h: seq<Obj>, env: Ref, name: string): (r: Result<Entry>)
    requires HeapOk(h) && env < |h|
    ensures r.Ok? <==> Visible(h, env, name).Some? && Visible(h, env, name).value.CodeEntry?
    ensures r.Ok? ==> Some(r.value) == Visible(h, env, name)
  {
    var at :- LookupEnv(h, env, name);
    var e := h[at.0].entries[at.1];
    if e.CodeEntry? then Ok(e) else Fatal("Entry " + name + " is not a function.")
  }

  /** lookup_var: the entry must be a variable; its place is returned so
      that it can be assigned. */
  function LookupVar(h: seq<Obj>, env: Ref, name: string): (r: Result<(Ref, nat)>)
    requires HeapOk(h) && env < |h|
    ensures r.Ok? <==> Visible(h, env, name).Some? && Visible(h, env, name).value.VarEntry?
    ensures r.Ok? ==> r.value.0 < |h| && h[r.value.0].EnvObj? && r.value.1 < |h[r.value.0].entries|
                      && Some(h[r.value.0].entries[r.value.1]) == Visible(h, env, name)
  {
    var at :- LookupEnv(h, env, name);
    if h[at.0].entries[at.1].VarEntry? then Ok(at) else Fatal("Entry " + name + " is not a variable.")
  }

  //============================================================
  // Values
  //============================================================

  /** bool_obj: true is the shared zero, false the shared null. */
  function BoolObj(b: bool): Ref
  {
    if b then ZERO_REF else NULL_REF
  }

  /** Conditionals take every object but null as true. */
  predicate Truthy(h: seq<Obj>, r: Ref)
    requires r < |h|
  {
    !h[r].NullObj?
  }

  lemma BoolObjTruthy(h: seq<Obj>, b: bool)
    requires HeapOk(h)
    ensures Truthy(h, BoolObj(b)) <==> b
  {
  }

  /** The outcome of an integer primitive: a truth value or an int. */
  datatype IntResult = Bool(b: bool) | Int(i: int)

  predicate IsIntSlot(name: string)
  {
    CString(name) in {"eq", "lt", "le", "gt", "ge", "add", "sub", "mul", "div", "mod"}
  }

  /** The integer primitives of call_int_slot on `a` and the argument `b`;
      arithmetic keeps the low 32 bits as the hardware does. */
  function IntOp(name: string, a: int, b: int): (r: Result<IntResult>)
    ensures r.Ok? <==> IsIntSlot(name) && (CString(name) in {"div", "mod"} ==> b != 0)
    ensures r.Ok? && r.value.Int? ==> IsInt32(r.value.i)
  {
    var n := CString(name);
    if n == "eq" then Ok(Bool(a == b))
    else if n == "lt" then Ok(Bool(a < b))
    else if n == "le" then Ok(Bool(a <= b))
    else if n == "gt" then Ok(Bool(a > b))
    else if n == "ge" then Ok(Bool(a >= b))
    else if n == "add" then Ok(Int(Wrap32(a + b)))
    else if n == "sub" then Ok(Int(Wrap32(a - b)))
    else if n == "mul" then Ok(Int(Wrap32(a * b)))
    else if n == "div" then (if b == 0 then Fatal(DIV_BY_ZERO) else Ok(Int(Wrap32(CDiv(a, b)))))
    else if n == "mod" then (if b == 0 then Fatal(DIV_BY_ZERO) else Ok(Int(Wrap32(CMod(a, b)))))
    else Fatal("No slot named " + name + " for Ints.")
  }

  /** Without overflow the arithmetic primitives are exact, and division
      and remainder put the dividend back together. */
  lemma IntOpExact(name: string, a: int, b: int)
    requires IsInt32(a) && IsInt32(b) && IntOp(name, a, b).Ok?
    ensures CString(name) == "add" && IsInt32(a + b) ==> IntOp(name, a, b) == Ok(Int(a + b))
    ensures CString(name) == "sub" && IsInt32(a - b) ==> IntOp(name, a, b) == Ok(Int(a - b))
    ensures CString(name) == "div" && IsInt32(CDiv(a, b)) ==>
              b * IntOp(name, a, b).value.i + IntOp("mod", a, b).value.i == a
  {
    if CString(name) == "div" {
      CDivMod(a, b);
      assert IsInt32(CMod(a, b));
    }
  }

  //============================================================
  // print_format
  //============================================================

  /** What print_format prints for `fmt` from its `i`-th argument on:
      characters up to the terminating NUL, each `~` standing for the next
      argument; fatal unless there are exactly as many `~` as arguments. */
  function Format(fmt: string, i: nat, vs: seq<Ref>): Result<seq<Printed>>
    decreases |fmt|
  {
    if fmt == [] || fmt[0] == '\0' then
      if i != |vs| then Fatal(PRINTF_ARGS) else Ok([])
    else if fmt[0] == '~' then
      if i >= |vs| then Fatal(PRINTF_ARGS)
      else
        var rest :- Format(fmt[1..], i + 1, vs);
        Ok([Shown(vs[i])] + rest)
    else
      var rest :- Format(fmt[1..], i, vs);
      Ok([Text(fmt[0])] + rest)
  }

  /** What print_format prints of `fmt` from its `i`-th argument on, up
      to the NUL or to the first `~` that finds no argument left. */
  function Prints(fmt: string, i: nat, vs: seq<Ref>): seq<Printed>
    decreases |fmt|
  {
    if fmt == [] || fmt[0] == '\0' then []
    else if fmt[0] == '~' then
      if i >= |vs| then [] else [Shown(vs[i])] + Prints(fmt[1..], i + 1, vs)
    else [Text(fmt[0])] + Prints(fmt[1..], i, vs)
  }

  /** One character of the format moves from what is left to print to
      what was printed. */
  lemma PrintsStep(acc: seq<Printed>, s: string, i: nat, vs: seq<Ref>)
    requires s != [] && s[0] != '\0' && (s[0] == '~' ==> i < |vs|)
    ensures acc + Prints(s, i, vs)
            == if s[0] == '~' then (acc + [Shown(vs[i])]) + Prints(s[1..], i + 1, vs)
               else (acc + [Text(s[0])]) + Prints(s[1..], i, vs)
  {
  }

  function Tildes(s: string): nat
  {
    if s == [] then 0 else (if s[0] == '~' then 1 else 0) + Tildes(s[1..])
  }

  function ShownObjs(out: seq<Printed>): seq<Ref>
  {
    if out == [] then [] else (if out[0].Shown? then [out[0].obj] else []) + ShownObjs(out[1..])
  }

  /** The format succeeds exactly when its `~` count is the number of
      arguments left, and then shows those arguments in order. */
  lemma {:induction false} FormatArguments(fmt: string, i: nat, vs: seq<Ref>)
    requires i <= |vs|
    ensures Format(fmt, i, vs).Ok? <==> i + Tildes(CString(fmt)) == |vs|
    ensures Format(fmt, i, vs).Ok? ==> ShownObjs(Format(fmt, i, vs).value) == vs[i..]
    decreases |fmt|
  {
    if fmt == [] || fmt[0] == '\0' {
    } else {
      assert CString(fmt) == [fmt[0]] + CString(fmt[1..]);
      assert CString(fmt)[1..] == CString(fmt[1..]);
      if fmt[0] == '~' {
        if i < |vs| {
          FormatArguments(fmt[1..], i + 1, vs);
          assert vs[i..] == [vs[i]] + vs[i + 1..];
        }
      } else {
        FormatArguments(fmt[1..], i, vs);
      }
    }
  }

  /** When the format succeeds, it printed exactly what print_format
      printed up to the NUL. */
  lemma {:induction false} FormatPrints(fmt: string, i: nat, vs: seq<Ref>)
    requires Format(fmt, i, vs).Ok?
    ensures Prints(fmt, i, vs) == Format(fmt, i, vs).value
    decreases |fmt|
  {
    if fmt == [] || fmt[0] == '\0' {
    } else if fmt[0] == '~' {
      FormatPrints(fmt[1..], i + 1, vs);
    } else {
      FormatPrints(fmt[1..], i, vs);
    }
  }

  /** Prefixes what was printed so far to what the rest of the format prints. */
  function Then(acc: seq<Printed>, r: Result<seq<Printed>>): Result<seq<Printed>>
  {
    match r
    case Ok(rest) => Ok(acc + rest)
    case Fatal(m) => Fatal(m)
  }

  /** One character of the format moves from what is left to print to
      what was printed. */
  lemma FormatStep(acc: seq<Printed>, s: string, i: nat, vs: seq<Ref>)
    requires s != [] && s[0] != '\0' && (s[0] == '~' ==> i < |vs|)
    ensures Then(acc, Format(s, i, vs))
            == if s[0] == '~' then Then(acc + [Shown(vs[i])], Format(s[1..], i + 1, vs))
               else Then(acc + [Text(s[0])], Format(s[1..], i, vs))
  {
    var x := if s[0] == '~' then Shown(vs[i]) else Text(s[0]);
    var rest := Format(s[1..], if s[0] == '~' then i + 1 else i, vs);
    if rest.Ok? {
      assert acc + ([x] + rest.value) == (acc + [x]) + rest.value;
    }
  }

  //============================================================
  // Frames
  //============================================================

  predicate IsEnv(h: seq<Obj>, r: Ref)
  {
    r < |h| && h[r].EnvObj?
  }

  predicate Refs(h: seq<Obj>, vs: seq<Ref>)
  {
    forall k :: 0 <= k < |vs| ==> vs[k] < |h|
  }

  /** The entries of a call frame: "this" first when there is a receiver,
      then each parameter bound to its argument, in order. */
  function Frame(self: Option<Ref>, params: seq<string>, vs: seq<Ref>): (r: seq<Entry>)
    requires |params| == |vs|
    ensures |r| == |params| + (if self.Some? then 1 else 0)
  {
    (if self.Some? then [VarEntry("this", self.value)] else [])
    + seq(|params|, k requires 0 <= k < |params| => VarEntry(params[k], vs[k]))
  }

  /** In a method frame "this" always denotes the receiver, whatever the
      parameters are called. */
  lemma FrameThis(h: seq<Obj>, fenv: Ref, genv: Ref, self: Ref, params: seq<string>, vs: seq<Ref>)
    requires HeapOk(h) && fenv < |h| && |params| == |vs|
    requires h[fenv] == EnvObj(genv, Frame(Some(self), params, vs))
    ensures Visible(h, fenv, "this") == Some(VarEntry("this", self))
  {
    VisibleStep(h, fenv, "this");
  }

  /** A parameter whose name is used by no earlier parameter (nor by
      "this") denotes its own argument. */
  lemma FrameParam(h: seq<Obj>, fenv: Ref, genv: Ref, self: Option<Ref>, params: seq<string>, vs: seq<Ref>, k: nat)
    requires HeapOk(h) && fenv < |h| && |params| == |vs| && k < |params|
    requires h[fenv] == EnvObj(genv, Frame(self, params, vs))
    requires self.Some? ==> !Same("this", params[k])
    requires forall j :: 0 <= j < k ==> !Same(params[j], params[k])
    ensures Visible(h, fenv, params[k]) == Some(VarEntry(params[k], vs[k]))
  {
    hide Visible, Scope, LookupFrame, Frame, Same, HeapOk, ObjOk, CString;
    VisibleStep(h, fenv, params[k]);
    FrameEntries(self, params, vs);
    var es := Frame(self, params, vs);
    var d := if self.Some? then 1 else 0;
    SameSelf(params[k]);
    forall j | 0 <= j < d + k
      ensures !Same(es[j].name, params[k])
    {
      if j >= d {
        assert es[j].name == params[j - d];
      }
    }
    FirstMatch(es, params[k], d + k);
  }

  lemma SameSelf(a: string)
    ensures Same(a, a)
  {
  }

  lemma FrameEntries(self: Option<Ref>, params: seq<string>, vs: seq<Ref>)
    requires |params| == |vs|
    ensures self.Some? ==> Frame(self, params, vs)[0] == VarEntry("this", self.value)
    ensures forall j :: 0 <= j < |params| ==>
              Frame(self, params, vs)[j + (if self.Some? then 1 else 0)] == VarEntry(params[j], vs[j])
  {
  }

  lemma FirstMatch(es: seq<Entry>, name: string, i: nat)
    requires i < |es| && Same(es[i].name, name)
    requires forall j :: 0 <= j < i ==> !Same(es[j].name, name)
    ensures LookupFrame(es, name) == Some(i)
  {
  }

  /** vector_add on the entries of `env`, as a new arena. */
  function Added(h: seq<Obj>, env: Ref, en: Entry): seq<Obj>
    requires IsEnv(h, env)
  {
    h[env := EnvObj(h[env].parent, h[env].entries + [en])]
  }

  lemma ScopeAdded(h: seq<Obj>, env: Ref, en: Entry)
    requires HeapOk(h) && IsEnv(h, env) && EntryOk(en, |h|)
    ensures HeapOk(Added(h, env, en))
    ensures Scope(Added(h, env, en), env) == (h[env].entries + [en]) + Scope(h, h[env].parent)
  {
    var h' := Added(h, env, en);
    assert ObjOk(h[env], env, |h|);
    HeapOkUpdate(h, env, h'[env]);
    ScopeBelow(h, h', h[env].parent, env);
  }

  /** An entry inserted between two runs of entries is found by a
      lookup exactly when the first run does not hold the name and the
      entry has it; otherwise the lookup finds what it found without it. */
  lemma Interposed(es: seq<Entry>, en: Entry, up: seq<Entry>, name: string)
    ensures var s := es + ([en] + up);
            var t := es + up;
            (match LookupFrame(s, name) case Some(k) => Some(s[k]) case None => None)
            == if LookupFrame(es, name).Some? || !Same(en.name, name)
               then (match LookupFrame(t, name) case Some(k) => Some(t[k]) case None => None)
               else Some(en)
  {
    hide Same, CString;
    LookupFrameAppend(es, [en] + up, name);
    LookupFrameAppend(es, up, name);
    LookupFrameAppend([en], up, name);
    if LookupFrame(es, name).None? && Same(en.name, name) {
      assert (es + ([en] + up))[|es|] == en;
    }
  }

  /** Adding an entry to a frame changes what a name denotes only when
      the frame did not already hold that name: lookup takes the first
      match, so an older entry of the same name stays in force. */
  lemma AddEntryVisible(h: seq<Obj>, env: Ref, en: Entry, name: string)
    requires HeapOk(h) && IsEnv(h, env) && EntryOk(en, |h|)
    ensures HeapOk(Added(h, env, en))
    ensures Visible(Added(h, env, en), env, name)
            == if LookupFrame(h[env].entries, name).Some? || !Same(en.name, name) then Visible(h, env, name)
               else Some(en)
  {
    hide Same, CString;
    var es := h[env].entries;
    var up := Scope(h, h[env].parent);
    ScopeAdded(h, env, en);
    assert Scope(h, env) == es + up by {
      assert ObjOk(h[env], env, |h|);
    }
    assert Scope(Added(h, env, en), env) == es + ([en] + up);
    hide Scope, HeapOk, Added, ObjOk, IsEnv, EntryOk, LookupFrame;
    Interposed(es, en, up, name);
  }

  /** Updating an object above `env` leaves the entries visible from it
      unchanged. */
  lemma {:induction false} ScopeBelow(h: seq<Obj>, h': seq<Obj>, env: Ref, j: Ref)
    requires HeapOk(h) && HeapOk(h') && |h| == |h'| && env < j < |h|
    requires forall i :: 0 <= i < |h| && i != j ==> h'[i] == h[i]
    ensures Scope(h', env) == Scope(h, env)
    decreases env
  {
    if h[env].EnvObj? {
      assert ObjOk(h[env], env, |h|);
      ScopeBelow(h, h', h[env].parent, j);
    }
  }

  /** `var->value = v` on the entry at `at`, as a new arena. */
  function Assigned(h: seq<Obj>, at: (Ref, nat), v: Ref): seq<Obj>
    requires IsEnv(h, at.0) && at.1 < |h[at.0].entries| && h[at.0].entries[at.1].VarEntry?
  {
    h[at.0 := EnvObj(h[at.0].parent, h[at.0].entries[at.1 := h[at.0].entries[at.1].(value := v)])]
  }

  lemma {:induction false} LookupFrameNames(es: seq<Entry>, k: nat, v: Ref, name: string)
    requires k < |es| && es[k].VarEntry?
    ensures LookupFrame(es[k := es[k].(value := v)], name) == LookupFrame(es, name)
  {
    hide Same, CString;
    var es' := es[k := es[k].(value := v)];
    if LookupFrame(es, name).Some? {
      var j := LookupFrame(es, name).value;
      assert es'[j].name == es[j].name;
      forall i | 0 <= i < j ensures !Same(es'[i].name, name) {
        assert es'[i].name == es[i].name;
      }
    } else {
      forall i | 0 <= i < |es'| ensures !Same(es'[i].name, name) {
        assert es'[i].name == es[i].name;
      }
    }
  }

  lemma AssignedOk(h: seq<Obj>, at: (Ref, nat), v: Ref)
    requires HeapOk(h) && IsEnv(h, at.0) && at.1 < |h[at.0].entries| && h[at.0].entries[at.1].VarEntry? && v < |h|
    ensures HeapOk(Assigned(h, at, v))
  {
    var o := h[at.0];
    assert ObjOk(o, at.0, |h|);
    var o' := Assigned(h, at, v)[at.0];
    assert ObjOk(o', at.0, |h|);
    HeapOkUpdate(h, at.0, o');
  }

  /** lookup_var from an environment whose frame lacks the name is
      lookup_var from its parent; otherwise it is the frame's entry. */
  lemma LookupVarStep(h: seq<Obj>, env: Ref, name: string)
    requires HeapOk(h) && IsEnv(h, env)
    ensures h[env].parent < env
    ensures LookupFrame(h[env].entries, name).None? ==> LookupVar(h, env, name) == LookupVar(h, h[env].parent, name)
    ensures LookupFrame(h[env].entries, name).Some? && LookupVar(h, env, name).Ok? ==>
              LookupVar(h, env, name).value == (env, LookupFrame(h[env].entries, name).value)
  {
    assert ObjOk(h[env], env, |h|);
  }

  /** Assigning to the place lookup_var found makes the name denote the
      new value, from the environment the lookup started at. */
  lemma {:induction false} AssignedVisible(h: seq<Obj>, env: Ref, name: string, v: Ref)
    requires HeapOk(h) && env < |h| && v < |h| && LookupVar(h, env, name).Ok?
    ensures HeapOk(Assigned(h, LookupVar(h, env, name).value, v))
    ensures Visible(Assigned(h, LookupVar(h, env, name).value, v), env, name)
            == Some(VarEntry(Visible(h, env, name).value.name, v))
    decreases env
  {
    var at := LookupVar(h, env, name).value;
    var h' := Assigned(h, at, v);
    AssignedOk(h, at, v);
    LookupVarStep(h, env, name);
    hide Visible, LookupVar, LookupEnv, Scope, Same, CString;
    VisibleStep(h, env, name);
    VisibleStep(h', env, name);
    if LookupFrame(h[env].entries, name).Some? {
      LookupFrameNames(h[env].entries, at.1, v, name);
    } else {
      assert h'[env] == h[env];
      AssignedVisible(h, h[env].parent, name, v);
    }
  }

  /** Which entries an object literal's slots become: a variable slot a
      variable of the same name, a method slot a function entry carrying
      its parameters and body, in slot order. */
  predicate SlotEntry(st: SlotStmt, en: Entry)
  {
    match st
    case SlotVar(name, _) => en.VarEntry? && en.name == name
    case SlotMethod(name, args, body) => en == CodeEntry(name, args, body)
  }

  predicate SlotsEntries(slots: seq<SlotStmt>, es: seq<Entry>)
  {
    |slots| == |es| && forall k :: 0 <= k < |es| ==> SlotEntry(slots[k], es[k])
  }

  //============================================================
  // The interpreter state
  //============================================================

  const NARGS := "Incorrect number of arguments."
  const NOT_INT := "Not an integer."
  const OUT_OF_BOUNDS := "Index out of bounds."
  const NOT_PARENT := "Not a legal parent."
  const NOT_OBJECT := "Not an object."

  /** The heap only grew, kept every object's kind, and output was only
      appended to. */
  ghost predicate Grows(h0: seq<Obj>, o0: seq<Printed>, h1: seq<Obj>, o1: seq<Printed>)
  {
    HeapOk(h1) && Extends(h0, h1) && o0 <= o1
  }

  lemma GrowsTrans(h0: seq<Obj>, o0: seq<Printed>, h1: seq<Obj>, o1: seq<Printed>, h2: seq<Obj>, o2: seq<Printed>)
    requires Grows(h0, o0, h1, o1) && Grows(h1, o1, h2, o2)
    ensures Grows(h0, o0, h2, o2)
  {
  }

  lemma GrowsKeeps(h0: seq<Obj>, o0: seq<Printed>, h1: seq<Obj>, o1: seq<Printed>, r: Ref)
    requires Grows(h0, o0, h1, o1) && r < |h0|
    ensures r < |h1| && KindOf(h1[r]) == KindOf(h0[r])
  {
  }

  //============================================================
  // Evaluation as functions
  //============================================================

  /** The arena and everything printed so far. */
  datatype St = St(heap: seq<Obj>, out: seq<Printed>)

  /** Where an evaluation leaves the state, and its result.  After a
      fatal error the state is the one the program stopped in; only what
      it printed can be observed. */
  datatype Ran<T> = Ran(st: St, res: Result<T>)

  /** An evaluation that stopped, passed on with its state. */
  function Stop<T, U>(x: Ran<T>): (r: Ran<U>)
    requires x.res.Fatal?
  {
    Ran(x.st, Fatal(x.res.msg))
  }

  /** What a list evaluated so far and the evaluation of the rest of it
      come to together. */
  function Joined<T>(done: seq<T>, r: Ran<seq<T>>): Ran<seq<T>>
  {
    if r.res.Fatal? then r else Ran(r.st, Ok(done + r.res.value))
  }

  lemma JoinedNil<T>(r: Ran<seq<T>>)
    ensures Joined([], r) == r
  {
    if r.res.Ok? {
      assert [] + r.res.value == r.res.value;
    }
  }

  lemma JoinedAppend<T>(a: seq<T>, b: seq<T>, r: Ran<seq<T>>)
    ensures Joined(a, Joined(b, r)) == Joined(a + b, r)
  {
    if r.res.Ok? {
      assert a + (b + r.res.value) == (a + b) + r.res.value;
    }
  }

  predicate Ready(s: St, genv: Ref, env: Ref)
  {
    HeapOk(s.heap) && IsEnv(s.heap, genv) && IsEnv(s.heap, env)
  }

  /** `t` is `s` after evaluation: the arena grew and output was appended. */
  ghost predicate Later(s: St, t: St)
  {
    Grows(s.heap, s.out, t.heap, t.out)
  }

  /** An evaluation of one value: a later state, and a reference into it. */
  ghost predicate Yields(s: St, r: Ran<Ref>)
  {
    Later(s, r.st) && (r.res.Ok? ==> r.res.value < |r.st.heap|)
  }

  lemma LaterReady(s: St, t: St, genv: Ref, env: Ref)
    requires Ready(s, genv, env) && Later(s, t)
    ensures Ready(t, genv, env)
  {
    assert KindOf(t.heap[genv]) == KindOf(s.heap[genv]);
    assert KindOf(t.heap[env]) == KindOf(s.heap[env]);
  }

  /** The arena with a call frame appended: an environment under
      `parent` holding the frame's entries. */
  lemma FrameOk(h: seq<Obj>, parent: Ref, self: Option<Ref>, params: seq<string>, vs: seq<Ref>)
    requires HeapOk(h) && parent < |h| && |params| == |vs| && Refs(h, vs)
    requires self.Some? ==> self.value < |h|
    ensures HeapOk(h + [EnvObj(parent, Frame(self, params, vs))])
  {
    var es := Frame(self, params, vs);
    var d := if self.Some? then 1 else 0;
    FrameEntries(self, params, vs);
    forall k | 0 <= k < |es|
      ensures EntryOk(es[k], |h| + 1)
    {
      if k >= d {
        assert es[k] == VarEntry(params[k - d], vs[k - d]);
      }
    }
    HeapOkAppend(h, EnvObj(parent, es));
  }

  /** A fresh empty environment under `env`. */
  lemma ChildOk(h: seq<Obj>, env: Ref)
    requires HeapOk(h) && env < |h|
    ensures HeapOk(h + [EnvObj(env, [])])
  {
    HeapOkAppend(h, EnvObj(env, []));
  }

  /** A variable reference: the value of the variable the name denotes. */
  function RefValue(h: seq<Obj>, env: Ref, name: string): (r: Result<Ref>)
    requires HeapOk(h) && env < |h|
    ensures r.Ok? <==> Visible(h, env, name).Some? && Visible(h, env, name).value.VarEntry?
    ensures r.Ok? ==> r.value < |h| && Visible(h, env, name).value.value == r.value
  {
    match LookupVar(h, env, name)
    case Fatal(m) => Fatal(m)
    case Ok(at) =>
      assert ObjOk(h[at.0], at.0, |h|);
      Ok(h[at.0].entries[at.1].value)
  }

  /** ensure_index: `i` must be an integer within the array's bounds. */
  function EnsureIndex(h: seq<Obj>, arr: Ref, i: Ref): (r: Result<nat>)
    requires HeapOk(h) && arr < |h| && h[arr].ArrayObj? && i < |h|
    ensures r.Ok? <==> h[i].IntObj? && 0 <= h[i].value < h[arr].length
    ensures r.Ok? ==> r.value == h[i].value && r.value < |h[arr].items|
  {
    if !h[i].IntObj? then Fatal(NOT_INT)
    else if h[i].value < 0 || h[i].value >= h[arr].length then Fatal(OUT_OF_BOUNDS)
    else
      assert ObjOk(h[arr], arr, |h|);
      Ok(h[i].value)
  }

  /** `obj->items[i] = x`, as a new arena. */
  function Stored(h: seq<Obj>, arr: Ref, k: nat, x: Ref): seq<Obj>
    requires arr < |h| && h[arr].ArrayObj? && k < |h[arr].items|
  {
    h[arr := ArrayObj(h[arr].length, h[arr].items[k := x])]
  }

  lemma StoredOk(h: seq<Obj>, arr: Ref, k: nat, x: Ref)
    requires HeapOk(h) && arr < |h| && h[arr].ArrayObj? && k < |h[arr].items| && x < |h|
    ensures HeapOk(Stored(h, arr, k, x))
  {
    var o := Stored(h, arr, k, x)[arr];
    assert ObjOk(h[arr], arr, |h|);
    assert ObjOk(o, arr, |h|);
    HeapOkUpdate(h, arr, o);
  }

  /** eval_exp.  The functions Ev* are the evaluator as the C code
      runs it, threading the arena and the output; every evaluation
      method of Interp is proved to leave the state and give the result
      its function says. */
  function EvExp(genv: Ref, env: Ref, s: St, e: Exp, fuel: nat): (r: Ran<Ref>)
    requires Ready(s, genv, env)
    ensures Yields(s, r)
    decreases fuel, e, 1
  {
    match e
    case IntExp(v) =>
      HeapOkAppend(s.heap, IntObj(v));
      Ran(St(s.heap + [IntObj(v)], s.out), Ok(|s.heap|))
    case NullExp => Ran(s, Ok(NULL_REF))
    case PrintfExp(_, _) => EvPrintf(genv, env, s, e, fuel)
    case ArrayExp(_, _) => EvArray(genv, env, s, e, fuel)
    case ObjectExp(_, _) => EvObject(genv, env, s, e, fuel)
    case SlotExp(_, _) => EvSlot(genv, env, s, e, fuel)
    case SetSlotExp(_, _, _) => EvSetSlot(genv, env, s, e, fuel)
    case CallSlotExp(name, x, args) =>
      var o := EvExp(genv, env, s, x, fuel);
      if o.res.Fatal? then o
      else
        LaterReady(s, o.st, genv, env);
        EvCallSlot(genv, env, o.st, o.res.value, name, args, fuel)
    case CallExp(_, _) => EvCall(genv, env, s, e, fuel)
    case SetExp(_, _) => EvSet(genv, env, s, e, fuel)
    case IfExp(_, _, _) => EvIf(genv, env, s, e, fuel)
    case WhileExp(_, _) => EvWhile(genv, env, s, e, fuel)
    case RefExp(name) => Ran(s, RefValue(s.heap, env, name))
  }

  /** Arguments, evaluated left to right. */
  function EvExps(genv: Ref, env: Ref, s: St, es: seq<Exp>, fuel: nat): (r: Ran<seq<Ref>>)
    requires Ready(s, genv, env)
    ensures Later(s, r.st)
    ensures r.res.Ok? ==> |r.res.value| == |es| && Refs(r.st.heap, r.res.value)
    decreases fuel, es, 0
  {
    if es == [] then Ran(s, Ok([]))
    else
      var x := EvExp(genv, env, s, es[0], fuel);
      if x.res.Fatal? then Stop(x)
      else
        LaterReady(s, x.st, genv, env);
        var rest := EvExps(genv, env, x.st, es[1..], fuel);
        if rest.res.Fatal? then rest
        else Ran(rest.st, Ok([x.res.value] + rest.res.value))
  }

  function EvPrintf(genv: Ref, env: Ref, s: St, e: Exp, fuel: nat): (r: Ran<Ref>)
    requires Ready(s, genv, env) && e.PrintfExp?
    ensures Yields(s, r)
    decreases fuel, e, 0
  {
    var vs := EvExps(genv, env, s, e.exps, fuel);
    if vs.res.Fatal? then Stop(vs)
    else
      var t := St(vs.st.heap, vs.st.out + Prints(e.format, 0, vs.res.value));
      if Format(e.format, 0, vs.res.value).Fatal? then Ran(t, Fatal(PRINTF_ARGS))
      else Ran(t, Ok(NULL_REF))
  }

  function EvArray(genv: Ref, env: Ref, s: St, e: Exp, fuel: nat): (r: Ran<Ref>)
    requires Ready(s, genv, env) && e.ArrayExp?
    ensures Yields(s, r)
    decreases fuel, e, 0
  {
    var n := EvExp(genv, env, s, e.length, fuel);
    if n.res.Fatal? then n
    else
      LaterReady(s, n.st, genv, env);
      var x := EvExp(genv, env, n.st, e.init, fuel);
      if x.res.Fatal? then x
      else
        var h := x.st.heap;
        if !h[n.res.value].IntObj? then Ran(x.st, Fatal(NOT_INT))
        else
          var len := h[n.res.value].value;
          var a := ArrayObj(len, Repeat(if len < 0 then 0 else len, x.res.value));
          HeapOkAppend(h, a);
          Ran(St(h + [a], x.st.out), Ok(|h|))
  }

  function EvObject(genv: Ref, env: Ref, s: St, e: Exp, fuel: nat): (r: Ran<Ref>)
    requires Ready(s, genv, env) && e.ObjectExp?
    ensures Yields(s, r)
    decreases fuel, e, 0
  {
    var p := EvExp(genv, env, s, e.parent, fuel);
    if p.res.Fatal? then p
    else if !(p.st.heap[p.res.value].NullObj? || p.st.heap[p.res.value].EnvObj?) then Ran(p.st, Fatal(NOT_PARENT))
    else
      LaterReady(s, p.st, genv, env);
      var es := EvSlots(genv, env, p.st, e.slots, fuel);
      if es.res.Fatal? then Stop(es)
      else
        var h := es.st.heap;
        HeapOkAppend(h, EnvObj(p.res.value, es.res.value));
        Ran(St(h + [EnvObj(p.res.value, es.res.value)], es.st.out), Ok(|h|))
  }

  /** The entries of an object literal, in slot order. */
  function EvSlots(genv: Ref, env: Ref, s: St, slots: seq<SlotStmt>, fuel: nat): (r: Ran<seq<Entry>>)
    requires Ready(s, genv, env)
    ensures Later(s, r.st)
    ensures r.res.Ok? ==> SlotsEntries(slots, r.res.value)
                          && forall k :: 0 <= k < |r.res.value| ==> EntryOk(r.res.value[k], |r.st.heap|)
    decreases fuel, slots, 0
  {
    if slots == [] then Ran(s, Ok([]))
    else match slots[0]
      case SlotVar(name, x) =>
        var v := EvExp(genv, env, s, x, fuel);
        if v.res.Fatal? then Stop(v)
        else
          LaterReady(s, v.st, genv, env);
          var rest := EvSlots(genv, env, v.st, slots[1..], fuel);
          if rest.res.Fatal? then rest
          else Ran(rest.st, Ok([VarEntry(name, v.res.value)] + rest.res.value))
      case SlotMethod(name, args, body) =>
        var rest := EvSlots(genv, env, s, slots[1..], fuel);
        if rest.res.Fatal? then rest
        else Ran(rest.st, Ok([CodeEntry(name, args, body)] + rest.res.value))
  }

  function EvSlot(genv: Ref, env: Ref, s: St, e: Exp, fuel: nat): (r: Ran<Ref>)
    requires Ready(s, genv, env) && e.SlotExp?
    ensures Yields(s, r)
    decreases fuel, e, 0
  {
    var o := EvExp(genv, env, s, e.exp, fuel);
    if o.res.Fatal? then o
    else if !o.st.heap[o.res.value].EnvObj? then Ran(o.st, Fatal(NOT_OBJECT))
    else Ran(o.st, RefValue(o.st.heap, o.res.value, e.name))
  }

  function EvSetSlot(genv: Ref, env: Ref, s: St, e: Exp, fuel: nat): (r: Ran<Ref>)
    requires Ready(s, genv, env) && e.SetSlotExp?
    ensures Yields(s, r)
    decreases fuel, e, 0
  {
    var o := EvExp(genv, env, s, e.exp, fuel);
    if o.res.Fatal? then o
    else if !o.st.heap[o.res.value].EnvObj? then Ran(o.st, Fatal(NOT_OBJECT))
    else
      LaterReady(s, o.st, genv, env);
      var v := EvExp(genv, env, o.st, e.newValue, fuel);
      if v.res.Fatal? then v
      else
        var h := v.st.heap;
        assert KindOf(h[o.res.value]) == KindOf(o.st.heap[o.res.value]);
        match LookupVar(h, o.res.value, e.name)
        case Fatal(m) => Ran(v.st, Fatal(m))
        case Ok(at) =>
          AssignedOk(h, at, v.res.value);
          Ran(St(Assigned(h, at, v.res.value), v.st.out), Ok(NULL_REF))
  }

  function EvSet(genv: Ref, env: Ref, s: St, e: Exp, fuel: nat): (r: Ran<Ref>)
    requires Ready(s, genv, env) && e.SetExp?
    ensures Yields(s, r)
    decreases fuel, e, 0
  {
    var v := EvExp(genv, env, s, e.exp, fuel);
    if v.res.Fatal? then v
    else
      LaterReady(s, v.st, genv, env);
      var h := v.st.heap;
      match LookupVar(h, env, e.name)
      case Fatal(m) => Ran(v.st, Fatal(m))
      case Ok(at) =>
        AssignedOk(h, at, v.res.value);
        Ran(St(Assigned(h, at, v.res.value), v.st.out), Ok(NULL_REF))
  }

  /** A call's body, run in a fresh frame under the global environment
      once the arguments are evaluated and a unit of fuel is spent. */
  function EvBody(genv: Ref, s: St, self: Option<Ref>, f: Entry, vs: seq<Ref>, fuel: nat): (r: Ran<Ref>)
    requires HeapOk(s.heap) && IsEnv(s.heap, genv) && f.CodeEntry? && |f.args| == |vs| && Refs(s.heap, vs)
    requires self.Some? ==> self.value < |s.heap|
    ensures Yields(s, r)
    decreases fuel, f.body, 2
  {
    var h := s.heap;
    FrameOk(h, genv, self, f.args, vs);
    var t := St(h + [EnvObj(genv, Frame(self, f.args, vs))], s.out);
    EvStmt(genv, |h|, t, f.body, fuel)
  }

  function EvCall(genv: Ref, env: Ref, s: St, e: Exp, fuel: nat): (r: Ran<Ref>)
    requires Ready(s, genv, env) && e.CallExp?
    ensures Yields(s, r)
    decreases fuel, e, 0
  {
    match LookupFn(s.heap, env, e.name)
    case Fatal(m) => Ran(s, Fatal(m))
    case Ok(f) =>
      if |e.args| != |f.args| then Ran(s, Fatal(NARGS))
      else
        var vs := EvExps(genv, env, s, e.args, fuel);
        if vs.res.Fatal? then Stop(vs)
        else if fuel == 0 then Ran(vs.st, Fatal(OUT_OF_FUEL))
        else
          LaterReady(s, vs.st, genv, env);
          EvBody(genv, vs.st, None, f, vs.res.value, fuel - 1)
  }

  /** call_slot: the receiver's kind picks the primitive or the method. */
  function EvCallSlot(genv: Ref, env: Ref, s: St, obj: Ref, name: string, args: seq<Exp>, fuel: nat): (r: Ran<Ref>)
    requires Ready(s, genv, env) && obj < |s.heap|
    ensures Yields(s, r)
    decreases fuel, args, 2
  {
    match s.heap[obj]
    case NullObj => Ran(s, Fatal("No slot named " + name + " for null."))
    case IntObj(_) => EvIntSlot(genv, env, s, obj, name, args, fuel)
    case ArrayObj(_, _) => EvArraySlot(genv, env, s, obj, name, args, fuel)
    case EnvObj(_, _) =>
      match LookupFn(s.heap, obj, name)
      case Fatal(m) => Ran(s, Fatal(m))
      case Ok(m) =>
        if |args| != |m.args| then Ran(s, Fatal(NARGS))
        else
          var vs := EvExps(genv, env, s, args, fuel);
          if vs.res.Fatal? then Stop(vs)
          else if fuel == 0 then Ran(vs.st, Fatal(OUT_OF_FUEL))
          else
            LaterReady(s, vs.st, genv, env);
            EvBody(genv, vs.st, Some(obj), m, vs.res.value, fuel - 1)
  }

  /** call_int_slot: one integer argument, evaluated before the name is
      looked at. */
  function EvIntSlot(genv: Ref, env: Ref, s: St, obj: Ref, name: string, args: seq<Exp>, fuel: nat): (r: Ran<Ref>)
    requires Ready(s, genv, env) && obj < |s.heap| && s.heap[obj].IntObj?
    ensures Yields(s, r)
    decreases fuel, args, 0
  {
    if |args| != 1 then Ran(s, Fatal(NARGS))
    else
      var x := EvExp(genv, env, s, args[0], fuel);
      if x.res.Fatal? then x
      else
        var h := x.st.heap;
        assert KindOf(h[obj]) == KindOf(s.heap[obj]);
        if !h[x.res.value].IntObj? then Ran(x.st, Fatal(NOT_INT))
        else match IntOp(name, h[obj].value, h[x.res.value].value)
          case Fatal(m) => Ran(x.st, Fatal(m))
          case Ok(Bool(b)) => Ran(x.st, Ok(BoolObj(b)))
          case Ok(Int(i)) =>
            HeapOkAppend(h, IntObj(i));
            Ran(St(h + [IntObj(i)], x.st.out), Ok(|h|))
  }

  /** call_array_slot: get, set and length on an array receiver. */
  function EvArraySlot(genv: Ref, env: Ref, s: St, arr: Ref, name: string, args: seq<Exp>, fuel: nat): (r: Ran<Ref>)
    requires Ready(s, genv, env) && arr < |s.heap| && s.heap[arr].ArrayObj?
    ensures Yields(s, r)
    decreases fuel, args, 1
  {
    var n := CString(name);
    if n == "get" then EvArrayGet(genv, env, s, arr, args, fuel)
    else if n == "set" then EvArraySet(genv, env, s, arr, args, fuel)
    else if n == "length" then
      if |args| != 0 then Ran(s, Fatal(NARGS))
      else
        HeapOkAppend(s.heap, IntObj(s.heap[arr].length));
        Ran(St(s.heap + [IntObj(s.heap[arr].length)], s.out), Ok(|s.heap|))
    else Ran(s, Fatal("No slot named " + name + " for Array."))
  }

  /** The array slot get: the item at an in-bounds integer index. */
  function EvArrayGet(genv: Ref, env: Ref, s: St, arr: Ref, args: seq<Exp>, fuel: nat): (r: Ran<Ref>)
    requires Ready(s, genv, env) && arr < |s.heap| && s.heap[arr].ArrayObj?
    ensures Yields(s, r)
    decreases fuel, args, 0
  {
    if |args| != 1 then Ran(s, Fatal(NARGS))
    else
      var i := EvExp(genv, env, s, args[0], fuel);
      if i.res.Fatal? then i
      else
        var h := i.st.heap;
        assert KindOf(h[arr]) == KindOf(s.heap[arr]);
        match EnsureIndex(h, arr, i.res.value)
        case Fatal(m) => Ran(i.st, Fatal(m))
        case Ok(k) =>
          ArrayItems(h, arr);
          Ran(i.st, Ok(h[arr].items[k]))
  }

  /** The array slot set: the value is stored at an in-bounds integer
      index, both arguments being evaluated before the index is checked. */
  function EvArraySet(genv: Ref, env: Ref, s: St, arr: Ref, args: seq<Exp>, fuel: nat): (r: Ran<Ref>)
    requires Ready(s, genv, env) && arr < |s.heap| && s.heap[arr].ArrayObj?
    ensures Yields(s, r)
    decreases fuel, args, 0
  {
    if |args| != 2 then Ran(s, Fatal(NARGS))
    else
      var i := EvExp(genv, env, s, args[0], fuel);
      if i.res.Fatal? then i
      else
        LaterReady(s, i.st, genv, env);
        var x := EvExp(genv, env, i.st, args[1], fuel);
        if x.res.Fatal? then x
        else
          var h := x.st.heap;
          assert KindOf(h[arr]) == KindOf(s.heap[arr]);
          match EnsureIndex(h, arr, i.res.value)
          case Fatal(m) => Ran(x.st, Fatal(m))
          case Ok(k) =>
            StoredOk(h, arr, k, x.res.value);
            Ran(St(Stored(h, arr, k, x.res.value), x.st.out), Ok(NULL_REF))
  }

  /** IF: the consequent runs exactly when the predicate is not null,
      in a fresh environment under the current one. */
  function EvIf(genv: Ref, env: Ref, s: St, e: Exp, fuel: nat): (r: Ran<Ref>)
    requires Ready(s, genv, env) && e.IfExp?
    ensures Yields(s, r)
    decreases fuel, e, 0
  {
    var p := EvExp(genv, env, s, e.pred, fuel);
    if p.res.Fatal? then p
    else
      LaterReady(s, p.st, genv, env);
      var h := p.st.heap;
      ChildOk(h, env);
      var t := St(h + [EnvObj(env, [])], p.st.out);
      if Truthy(h, p.res.value) then EvStmt(genv, |h|, t, e.conseq, fuel)
      else EvStmt(genv, |h|, t, e.alt, fuel)
  }

  /** WHILE: the body runs, each time in a fresh environment, until the
      predicate is null; each round spends one unit of fuel. */
  function EvWhile(genv: Ref, env: Ref, s: St, e: Exp, fuel: nat): (r: Ran<Ref>)
    requires Ready(s, genv, env) && e.WhileExp?
    ensures Yields(s, r)
    decreases fuel, e, 0
  {
    var p := EvExp(genv, env, s, e.pred, fuel);
    if p.res.Fatal? then p
    else if !Truthy(p.st.heap, p.res.value) then Ran(p.st, Ok(NULL_REF))
    else if fuel == 0 then Ran(p.st, Fatal(OUT_OF_FUEL))
    else
      LaterReady(s, p.st, genv, env);
      var h := p.st.heap;
      ChildOk(h, env);
      var b := EvStmt(genv, |h|, St(h + [EnvObj(env, [])], p.st.out), e.body, fuel);
      if b.res.Fatal? then b
      else
        LaterReady(p.st, b.st, genv, env);
        EvWhile(genv, env, b.st, e, fuel - 1)
  }

  /** eval_stmt. */
  function EvStmt(genv: Ref, env: Ref, s: St, st: ScopeStmt, fuel: nat): (r: Ran<Ref>)
    requires Ready(s, genv, env)
    ensures Yields(s, r)
    decreases fuel, st, 1
  {
    match st
    case ScopeVar(name, x) =>
      var v := EvExp(genv, env, s, x, fuel);
      if v.res.Fatal? then v
      else
        LaterReady(s, v.st, genv, env);
        ScopeAdded(v.st.heap, env, VarEntry(name, v.res.value));
        Ran(St(Added(v.st.heap, env, VarEntry(name, v.res.value)), v.st.out), Ok(NULL_REF))
    case ScopeFn(name, args, body) =>
      ScopeAdded(s.heap, env, CodeEntry(name, args, body));
      Ran(St(Added(s.heap, env, CodeEntry(name, args, body)), s.out), Ok(NULL_REF))
    case ScopeSeq(a, b) =>
      var x := EvStmt(genv, env, s, a, fuel);
      if x.res.Fatal? then x
      else
        LaterReady(s, x.st, genv, env);
        EvStmt(genv, env, x.st, b, fuel)
    case ScopeExp(x) => EvExp(genv, env, s, x, fuel)
  }

  //============================================================
  // What evaluation promises
  //============================================================

  /** An INT literal allocates its Int; NULL is the shared null. */
  lemma Literals(genv: Ref, env: Ref, s: St, e: Exp, fuel: nat)
    requires Ready(s, genv, env)
    ensures e.IntExp? ==> EvExp(genv, env, s, e, fuel) == Ran(St(s.heap + [IntObj(e.value)], s.out), Ok(|s.heap|))
    ensures e.NullExp? ==> EvExp(genv, env, s, e, fuel) == Ran(s, Ok(NULL_REF))
  {
  }

  /** Arguments are evaluated left to right: evaluating `a + b` is
      evaluating `a`, then `b` from the state `a` left, with the values
      in that order. */
  lemma {:induction false} ExpsAppend(genv: Ref, env: Ref, s: St, a: seq<Exp>, b: seq<Exp>, fuel: nat)
    requires Ready(s, genv, env)
    ensures var x := EvExps(genv, env, s, a, fuel);
            EvExps(genv, env, s, a + b, fuel)
            == if x.res.Fatal? then x
               else (LaterReady(s, x.st, genv, env); Joined(x.res.value, EvExps(genv, env, x.st, b, fuel)))
    decreases |a|
  {
    hide EvExp;
    if a == [] {
      assert [] + b == b;
      JoinedNil(EvExps(genv, env, s, b, fuel));
    } else {
      assert (a + b)[0] == a[0] && (a + b)[1..] == a[1..] + b;
      var x0 := EvExp(genv, env, s, a[0], fuel);
      if x0.res.Ok? {
        LaterReady(s, x0.st, genv, env);
        ExpsAppend(genv, env, x0.st, a[1..], b, fuel);
        var y := EvExps(genv, env, x0.st, a[1..], fuel);
        assert EvExps(genv, env, s, a, fuel) == Joined([x0.res.value], y);
        assert EvExps(genv, env, s, a + b, fuel) == Joined([x0.res.value], EvExps(genv, env, x0.st, a[1..] + b, fuel));
        if y.res.Ok? {
          LaterReady(x0.st, y.st, genv, env);
          JoinedAppend([x0.res.value], y.res.value, EvExps(genv, env, y.st, b, fuel));
        }
      }
    }
  }

  /** PRINTF: once the arguments are evaluated, the format prints with
      each `~` showing the next argument; it passes exactly when the
      format's `~` count is the argument count, and gives null. */
  lemma PrintfShows(genv: Ref, env: Ref, s: St, e: Exp, fuel: nat)
    requires Ready(s, genv, env) && e.PrintfExp?
    ensures var vs := EvExps(genv, env, s, e.exps, fuel);
            var r := EvPrintf(genv, env, s, e, fuel);
            vs.res.Ok? ==>
              && r.st == St(vs.st.heap, vs.st.out + Prints(e.format, 0, vs.res.value))
              && (r.res.Ok? <==> Tildes(CString(e.format)) == |e.exps|)
              && (r.res.Ok? ==> r.res.value == NULL_REF
                                && Prints(e.format, 0, vs.res.value) == Format(e.format, 0, vs.res.value).value
                                && ShownObjs(Prints(e.format, 0, vs.res.value)) == vs.res.value)
  {
    hide EvExps;
    var vs := EvExps(genv, env, s, e.exps, fuel);
    if vs.res.Ok? {
      FormatArguments(e.format, 0, vs.res.value);
      if Format(e.format, 0, vs.res.value).Ok? {
        FormatPrints(e.format, 0, vs.res.value);
      }
    }
  }

  /** ARRAY: the length must be an Int; the new array has that length
      and every item is the initial value. */
  lemma ArrayMade(genv: Ref, env: Ref, s: St, e: Exp, fuel: nat)
    requires Ready(s, genv, env) && e.ArrayExp?
    ensures var r := EvArray(genv, env, s, e, fuel);
            r.res.Ok? ==>
              var n := EvExp(genv, env, s, e.length, fuel);
              var x := EvExp(genv, env, n.st, e.init, fuel);
              && n.res.Ok? && x.res.Ok? && x.st.heap[n.res.value].IntObj?
              && r.res.value == |x.st.heap| && r.st.heap[..r.res.value] == x.st.heap
              && r.st.heap[r.res.value].ArrayObj?
              && r.st.heap[r.res.value].length == x.st.heap[n.res.value].value
              && |r.st.heap[r.res.value].items| == (if x.st.heap[n.res.value].value < 0 then 0 else x.st.heap[n.res.value].value)
              && forall k :: 0 <= k < |r.st.heap[r.res.value].items| ==> r.st.heap[r.res.value].items[k] == x.res.value
  {
    hide EvExp;
    var n := EvExp(genv, env, s, e.length, fuel);
    if n.res.Ok? {
      LaterReady(s, n.st, genv, env);
      var x := EvExp(genv, env, n.st, e.init, fuel);
      if x.res.Ok? && x.st.heap[n.res.value].IntObj? {
        var h := x.st.heap;
        assert (h + [ArrayObj(h[n.res.value].value, Repeat(if h[n.res.value].value < 0 then 0 else h[n.res.value].value, x.res.value))])[..|h|] == h;
      }
    }
  }

  /** OBJECT: a fresh environment whose parent is null or an object and
      whose entries follow the slots in order. */
  lemma ObjectMade(genv: Ref, env: Ref, s: St, e: Exp, fuel: nat)
    requires Ready(s, genv, env) && e.ObjectExp?
    ensures var r := EvObject(genv, env, s, e, fuel);
            r.res.Ok? ==>
              && r.res.value == |r.st.heap| - 1 && r.st.heap[r.res.value].EnvObj?
              && SlotsEntries(e.slots, r.st.heap[r.res.value].entries)
              && var p := r.st.heap[r.res.value].parent;
                 p < r.res.value && (r.st.heap[p].NullObj? || r.st.heap[p].EnvObj?)
  {
    hide EvExp, EvSlots;
    var p := EvExp(genv, env, s, e.parent, fuel);
    if p.res.Ok? && (p.st.heap[p.res.value].NullObj? || p.st.heap[p.res.value].EnvObj?) {
      LaterReady(s, p.st, genv, env);
      var es := EvSlots(genv, env, p.st, e.slots, fuel);
      if es.res.Ok? {
        assert KindOf(es.st.heap[p.res.value]) == KindOf(p.st.heap[p.res.value]);
      }
    }
  }

  /** SLOT: the object must be an environment, and the result is the
      value of the variable the name denotes from it. */
  lemma SlotReads(genv: Ref, env: Ref, s: St, e: Exp, fuel: nat)
    requires Ready(s, genv, env) && e.SlotExp?
    ensures var o := EvExp(genv, env, s, e.exp, fuel);
            var r := EvSlot(genv, env, s, e, fuel);
            o.res.Ok? ==>
              && r.st == o.st
              && (r.res.Ok? <==> o.st.heap[o.res.value].EnvObj? && Visible(o.st.heap, o.res.value, e.name).Some?
                                 && Visible(o.st.heap, o.res.value, e.name).value.VarEntry?)
              && (r.res.Ok? ==> r.res.value == Visible(o.st.heap, o.res.value, e.name).value.value)
  {
    hide EvExp;
  }

  /** SET: once the value is evaluated, the assignment succeeds exactly
      when the name denotes a variable, and then the name denotes the
      value. */
  lemma SetAssigns(genv: Ref, env: Ref, s: St, e: Exp, fuel: nat)
    requires Ready(s, genv, env) && e.SetExp?
    ensures var v := EvExp(genv, env, s, e.exp, fuel);
            var r := EvSet(genv, env, s, e, fuel);
            v.res.Ok? ==>
              (LaterReady(s, v.st, genv, env);
              && r.st.out == v.st.out
              && (r.res.Ok? <==> Visible(v.st.heap, env, e.name).Some? && Visible(v.st.heap, env, e.name).value.VarEntry?)
              && (r.res.Ok? ==> r.res.value == NULL_REF
                                && Visible(r.st.heap, env, e.name)
                                   == Some(VarEntry(Visible(v.st.heap, env, e.name).value.name, v.res.value))))
  {
    hide EvExp, Visible, Assigned;
    var v := EvExp(genv, env, s, e.exp, fuel);
    if v.res.Ok? {
      LaterReady(s, v.st, genv, env);
      if LookupVar(v.st.heap, env, e.name).Ok? {
        AssignedVisible(v.st.heap, env, e.name, v.res.value);
      }
    }
  }

  /** SET_SLOT: the object must be an environment; once the value is
      evaluated, the assignment succeeds exactly when the name denotes a
      variable from the object, and then it denotes the value. */
  lemma SetSlotAssigns(genv: Ref, env: Ref, s: St, e: Exp, fuel: nat)
    requires Ready(s, genv, env) && e.SetSlotExp?
    ensures var o := EvExp(genv, env, s, e.exp, fuel);
            var r := EvSetSlot(genv, env, s, e, fuel);
            o.res.Ok? && o.st.heap[o.res.value].EnvObj? ==>
              (LaterReady(s, o.st, genv, env);
              var v := EvExp(genv, env, o.st, e.newValue, fuel);
              v.res.Ok? ==>
                && r.st.out == v.st.out
                && (r.res.Ok? <==> Visible(v.st.heap, o.res.value, e.name).Some?
                                   && Visible(v.st.heap, o.res.value, e.name).value.VarEntry?)
                && (r.res.Ok? ==> r.res.value == NULL_REF
                                  && Visible(r.st.heap, o.res.value, e.name)
                                     == Some(VarEntry(Visible(v.st.heap, o.res.value, e.name).value.name, v.res.value))))
  {
    hide EvExp, Visible, Assigned;
    var o := EvExp(genv, env, s, e.exp, fuel);
    if o.res.Ok? && o.st.heap[o.res.value].EnvObj? {
      LaterReady(s, o.st, genv, env);
      var v := EvExp(genv, env, o.st, e.newValue, fuel);
      if v.res.Ok? {
        assert KindOf(v.st.heap[o.res.value]) == KindOf(o.st.heap[o.res.value]);
        if LookupVar(v.st.heap, o.res.value, e.name).Ok? {
          AssignedVisible(v.st.heap, o.res.value, e.name, v.res.value);
        }
      }
    }
  }

  /** Appending an object leaves what every old environment sees unchanged. */
  lemma {:induction false} ScopeAppend(h: seq<Obj>, o: Obj, env: Ref)
    requires HeapOk(h) && HeapOk(h + [o]) && env < |h|
    ensures Scope(h + [o], env) == Scope(h, env)
    decreases env
  {
    if h[env].EnvObj? {
      assert ObjOk(h[env], env, |h|);
      assert (h + [o])[env] == h[env];
      ScopeAppend(h, o, h[env].parent);
    }
  }

  /** A fresh empty environment under `env` sees what `env` sees. */
  lemma ChildScope(h: seq<Obj>, env: Ref, name: string)
    requires HeapOk(h) && IsEnv(h, env)
    ensures HeapOk(h + [EnvObj(env, [])])
    ensures Visible(h + [EnvObj(env, [])], |h|, name) == Visible(h, env, name)
  {
    ChildOk(h, env);
    ScopeAppend(h, EnvObj(env, []), env);
    assert Scope(h + [EnvObj(env, [])], |h|) == [] + Scope(h + [EnvObj(env, [])], env);
    assert [] + Scope(h, env) == Scope(h, env);
  }

  /** IF: once the predicate is evaluated, the consequent runs when it
      is not null and the alternative otherwise, in a fresh environment
      that sees every name the IF sees. */
  lemma IfBranch(genv: Ref, env: Ref, s: St, e: Exp, fuel: nat)
    requires Ready(s, genv, env) && e.IfExp?
    ensures var p := EvExp(genv, env, s, e.pred, fuel);
            p.res.Ok? ==>
              (LaterReady(s, p.st, genv, env);
              (ChildOk(p.st.heap, env);
              var h := p.st.heap;
              && EvIf(genv, env, s, e, fuel)
                 == EvStmt(genv, |h|, St(h + [EnvObj(env, [])], p.st.out),
                           if Truthy(h, p.res.value) then e.conseq else e.alt, fuel)
              && forall name :: Visible(h + [EnvObj(env, [])], |h|, name) == Visible(h, env, name)))
  {
    hide EvExp, EvStmt;
    var p := EvExp(genv, env, s, e.pred, fuel);
    if p.res.Ok? {
      LaterReady(s, p.st, genv, env);
      forall name
        ensures Visible(p.st.heap + [EnvObj(env, [])], |p.st.heap|, name) == Visible(p.st.heap, env, name)
      {
        ChildScope(p.st.heap, env, name);
      }
    }
  }

  /** WHILE: once the predicate is evaluated, the loop ends with null when
      it is null; otherwise, fuel permitting, the body runs in a fresh
      environment that sees every name the WHILE sees, and the loop
      starts again from where the body left the state. */
  lemma WhileRound(genv: Ref, env: Ref, s: St, e: Exp, fuel: nat)
    requires Ready(s, genv, env) && e.WhileExp?
    ensures var p := EvExp(genv, env, s, e.pred, fuel);
            var r := EvWhile(genv, env, s, e, fuel);
            p.res.Ok? ==>
              (LaterReady(s, p.st, genv, env);
              (ChildOk(p.st.heap, env);
              var h := p.st.heap;
              && (!Truthy(h, p.res.value) ==> r == Ran(p.st, Ok(NULL_REF)))
              && (Truthy(h, p.res.value) && fuel == 0 ==> r == Ran(p.st, Fatal(OUT_OF_FUEL)))
              && (Truthy(h, p.res.value) && fuel > 0 ==>
                    var b := EvStmt(genv, |h|, St(h + [EnvObj(env, [])], p.st.out), e.body, fuel);
                    r == if b.res.Fatal? then b
                         else (LaterReady(p.st, b.st, genv, env); EvWhile(genv, env, b.st, e, fuel - 1)))
              && forall name :: Visible(h + [EnvObj(env, [])], |h|, name) == Visible(h, env, name)))
  {
    hide EvExp, EvStmt;
    var p := EvExp(genv, env, s, e.pred, fuel);
    if p.res.Ok? {
      LaterReady(s, p.st, genv, env);
      forall name
        ensures Visible(p.st.heap + [EnvObj(env, [])], |p.st.heap|, name) == Visible(p.st.heap, env, name)
      {
        ChildScope(p.st.heap, env, name);
      }
    }
  }

  /** A WHILE that ends without an error gives null, however many rounds
      it ran. */
  lemma {:induction false} WhileNull(genv: Ref, env: Ref, s: St, e: Exp, fuel: nat)
    requires Ready(s, genv, env) && e.WhileExp?
    ensures EvWhile(genv, env, s, e, fuel).res.Ok? ==> EvWhile(genv, env, s, e, fuel).res.value == NULL_REF
    decreases fuel
  {
    hide EvExp, EvStmt;
    var p := EvExp(genv, env, s, e.pred, fuel);
    if p.res.Ok? && Truthy(p.st.heap, p.res.value) && fuel > 0 {
      LaterReady(s, p.st, genv, env);
      var h := p.st.heap;
      ChildOk(h, env);
      var b := EvStmt(genv, |h|, St(h + [EnvObj(env, [])], p.st.out), e.body, fuel);
      if b.res.Ok? {
        LaterReady(p.st, b.st, genv, env);
        WhileNull(genv, env, b.st, e, fuel - 1);
      }
    }
  }

  /** A body runs in a fresh frame under the global environment, in
      which "this" denotes the receiver of a method call and each
      parameter not named by an earlier one (nor "this") its argument. */
  lemma BodyFrame(genv: Ref, s: St, self: Option<Ref>, f: Entry, vs: seq<Ref>, fuel: nat)
    requires HeapOk(s.heap) && IsEnv(s.heap, genv) && f.CodeEntry? && |f.args| == |vs| && Refs(s.heap, vs)
    requires self.Some? ==> self.value < |s.heap|
    ensures (FrameOk(s.heap, genv, self, f.args, vs);
             var h := s.heap + [EnvObj(genv, Frame(self, f.args, vs))];
            && EvBody(genv, s, self, f, vs, fuel) == EvStmt(genv, |s.heap|, St(h, s.out), f.body, fuel)
            && (self.Some? ==> Visible(h, |s.heap|, "this") == Some(VarEntry("this", self.value)))
            && forall k :: 0 <= k < |vs| && (self.Some? ==> !Same("this", f.args[k]))
                           && (forall j :: 0 <= j < k ==> !Same(f.args[j], f.args[k])) ==>
                 Visible(h, |s.heap|, f.args[k]) == Some(VarEntry(f.args[k], vs[k])))
  {
    FrameOk(s.heap, genv, self, f.args, vs);
    var h := s.heap + [EnvObj(genv, Frame(self, f.args, vs))];
    if self.Some? {
      FrameThis(h, |s.heap|, genv, self.value, f.args, vs);
    }
    forall k | 0 <= k < |vs| && (self.Some? ==> !Same("this", f.args[k]))
               && (forall j :: 0 <= j < k ==> !Same(f.args[j], f.args[k]))
      ensures Visible(h, |s.heap|, f.args[k]) == Some(VarEntry(f.args[k], vs[k]))
    {
      FrameParam(h, |s.heap|, genv, self, f.args, vs, k);
    }
  }

  /** A call: the name must denote a function taking as many arguments as
      given; the arguments are evaluated left to right in the caller's
      environment, and then, fuel permitting, the body runs with one unit
      less. */
  lemma CallRuns(genv: Ref, env: Ref, s: St, e: Exp, fuel: nat)
    requires Ready(s, genv, env) && e.CallExp?
    ensures var r := EvCall(genv, env, s, e, fuel);
            var f := Visible(s.heap, env, e.name);
            && (r.res.Ok? ==> f.Some? && f.value.CodeEntry? && |f.value.args| == |e.args|)
            && (f.Some? && f.value.CodeEntry? && |f.value.args| != |e.args| ==> r == Ran(s, Fatal(NARGS)))
            && (f.Some? && f.value.CodeEntry? && |f.value.args| == |e.args| ==>
                  var vs := EvExps(genv, env, s, e.args, fuel);
                  && (vs.res.Fatal? ==> r.st == vs.st && r.res.Fatal?)
                  && (vs.res.Ok? && fuel == 0 ==> r == Ran(vs.st, Fatal(OUT_OF_FUEL)))
                  && (vs.res.Ok? && fuel > 0 ==>
                        (LaterReady(s, vs.st, genv, env);
                         r == EvBody(genv, vs.st, None, f.value, vs.res.value, fuel - 1))))
  {
    hide EvExps, EvBody;
  }

  /** A method call: a null receiver has no slots, an integer or an array
      receiver takes its primitive slots, and an object's method is found
      from the object and called like a function, with the object as
      "this". */
  lemma CallSlotRuns(genv: Ref, env: Ref, s: St, obj: Ref, name: string, args: seq<Exp>, fuel: nat)
    requires Ready(s, genv, env) && obj < |s.heap|
    ensures var r := EvCallSlot(genv, env, s, obj, name, args, fuel);
            var m := Visible(s.heap, obj, name);
            && (s.heap[obj].NullObj? ==> r.st == s && r.res.Fatal?)
            && (s.heap[obj].IntObj? ==> r == EvIntSlot(genv, env, s, obj, name, args, fuel))
            && (s.heap[obj].ArrayObj? ==> r == EvArraySlot(genv, env, s, obj, name, args, fuel))
            && (s.heap[obj].EnvObj? && r.res.Ok? ==> m.Some? && m.value.CodeEntry? && |m.value.args| == |args|)
            && (s.heap[obj].EnvObj? && m.Some? && m.value.CodeEntry? && |m.value.args| != |args| ==> r == Ran(s, Fatal(NARGS)))
            && (s.heap[obj].EnvObj? && m.Some? && m.value.CodeEntry? && |m.value.args| == |args| ==>
                  var vs := EvExps(genv, env, s, args, fuel);
                  && (vs.res.Fatal? ==> r.st == vs.st && r.res.Fatal?)
                  && (vs.res.Ok? && fuel == 0 ==> r == Ran(vs.st, Fatal(OUT_OF_FUEL)))
                  && (vs.res.Ok? && fuel > 0 ==>
                        (LaterReady(s, vs.st, genv, env);
                         r == EvBody(genv, vs.st, Some(obj), m.value, vs.res.value, fuel - 1))))
  {
    hide EvExps, EvBody, EvIntSlot, EvArraySlot;
  }

  /** An integer's slots: exactly one argument, which must be an
      integer; the operation is the one its name selects, a comparison
      giving a truthy or null result, arithmetic a new integer. */
  lemma IntSlotComputes(genv: Ref, env: Ref, s: St, obj: Ref, name: string, args: seq<Exp>, fuel: nat)
    requires Ready(s, genv, env) && obj < |s.heap| && s.heap[obj].IntObj?
    ensures var r := EvIntSlot(genv, env, s, obj, name, args, fuel);
            && (|args| != 1 ==> r == Ran(s, Fatal(NARGS)))
            && (|args| == 1 ==>
                  var x := EvExp(genv, env, s, args[0], fuel);
                  x.res.Ok? ==>
                    var h := x.st.heap;
                    && r.st.out == x.st.out
                    && (r.res.Ok? <==> h[x.res.value].IntObj? && IntOp(name, s.heap[obj].value, h[x.res.value].value).Ok?)
                    && (r.res.Ok? ==>
                          match IntOp(name, s.heap[obj].value, h[x.res.value].value).value
                          case Bool(b) => r.st == x.st && Truthy(h, r.res.value) == b
                          case Int(i) => r.st.heap == h + [IntObj(i)] && r.res.value == |h|))
  {
    hide EvExp, IntOp;
    if |args| == 1 {
      var x := EvExp(genv, env, s, args[0], fuel);
      if x.res.Ok? {
        assert KindOf(x.st.heap[obj]) == KindOf(s.heap[obj]);
        BoolObjTruthy(x.st.heap, true);
        BoolObjTruthy(x.st.heap, false);
      }
    }
  }

  /** An array's slots: get and set, and length, which takes no argument
      and gives the array's length as a new integer; any other name is
      an error. */
  lemma ArraySlotRuns(genv: Ref, env: Ref, s: St, arr: Ref, name: string, args: seq<Exp>, fuel: nat)
    requires Ready(s, genv, env) && arr < |s.heap| && s.heap[arr].ArrayObj?
    ensures var r := EvArraySlot(genv, env, s, arr, name, args, fuel);
            var n := CString(name);
            && (n == "get" ==> r == EvArrayGet(genv, env, s, arr, args, fuel))
            && (n == "set" ==> r == EvArraySet(genv, env, s, arr, args, fuel))
            && (n == "length" ==> (r.res.Ok? <==> |args| == 0)
                                  && (r.res.Ok? ==> r.st == St(s.heap + [IntObj(s.heap[arr].length)], s.out)
                                                    && r.res.value == |s.heap|))
            && (n != "get" && n != "set" && n != "length" ==> r.st == s && r.res.Fatal?)
  {
    hide EvArrayGet, EvArraySet;
  }

  /** get: one argument, which must be an integer within the array's
      bounds; the result is the item at that index. */
  lemma ArrayGetItem(genv: Ref, env: Ref, s: St, arr: Ref, args: seq<Exp>, fuel: nat)
    requires Ready(s, genv, env) && arr < |s.heap| && s.heap[arr].ArrayObj?
    ensures var r := EvArrayGet(genv, env, s, arr, args, fuel);
            && (|args| != 1 ==> r == Ran(s, Fatal(NARGS)))
            && (|args| == 1 ==>
                  var i := EvExp(genv, env, s, args[0], fuel);
                  i.res.Ok? ==>
                    var h := i.st.heap;
                    (ArrayItems(h, arr);
                    && r.st == i.st
                    && (r.res.Ok? <==> h[i.res.value].IntObj? && 0 <= h[i.res.value].value < s.heap[arr].length)
                    && (r.res.Ok? ==> r.res.value == h[arr].items[h[i.res.value].value])))
  {
    hide EvExp;
    if |args| == 1 {
      var i := EvExp(genv, env, s, args[0], fuel);
      if i.res.Ok? {
        assert KindOf(i.st.heap[arr]) == KindOf(s.heap[arr]);
        ArrayItems(i.st.heap, arr);
      }
    }
  }

  /** set: two arguments, both evaluated before the index is checked,
      which must be an integer within the array's bounds; the item at
      that index becomes the value, and every other item and object
      stays as it was. */
  lemma ArraySetStores(genv: Ref, env: Ref, s: St, arr: Ref, args: seq<Exp>, fuel: nat)
    requires Ready(s, genv, env) && arr < |s.heap| && s.heap[arr].ArrayObj?
    ensures var r := EvArraySet(genv, env, s, arr, args, fuel);
            && (|args| != 2 ==> r == Ran(s, Fatal(NARGS)))
            && (|args| == 2 ==>
                  var i := EvExp(genv, env, s, args[0], fuel);
                  i.res.Ok? ==>
                    (LaterReady(s, i.st, genv, env);
                    var x := EvExp(genv, env, i.st, args[1], fuel);
                    x.res.Ok? ==>
                      var h := x.st.heap;
                      var k := h[i.res.value];
                      (ArrayItems(h, arr);
                      && r.st.out == x.st.out
                      && (r.res.Ok? <==> k.IntObj? && 0 <= k.value < s.heap[arr].length)
                      && (r.res.Ok? ==>
                            && r.res.value == NULL_REF
                            && |r.st.heap| == |h|
                            && r.st.heap[arr].ArrayObj? && r.st.heap[arr].length == h[arr].length
                            && |r.st.heap[arr].items| == |h[arr].items|
                            && r.st.heap[arr].items[k.value] == x.res.value
                            && (forall j :: 0 <= j < |h[arr].items| && j != k.value ==> r.st.heap[arr].items[j] == h[arr].items[j])
                            && (forall j :: 0 <= j < |h| && j != arr ==> r.st.heap[j] == h[j])))))
  {
    hide EvExp;
    if |args| == 2 {
      var i := EvExp(genv, env, s, args[0], fuel);
      if i.res.Ok? {
        LaterReady(s, i.st, genv, env);
        var x := EvExp(genv, env, i.st, args[1], fuel);
        if x.res.Ok? {
          assert KindOf(x.st.heap[arr]) == KindOf(s.heap[arr]);
          ArrayItems(x.st.heap, arr);
        }
      }
    }
  }

  /** VAR and a function definition add an entry to the current frame;
      the name then denotes it unless the frame already held that name,
      lookup taking the first match. */
  lemma Defines(genv: Ref, env: Ref, s: St, st: ScopeStmt, fuel: nat)
    requires Ready(s, genv, env) && (st.ScopeVar? || st.ScopeFn?)
    ensures var r := EvStmt(genv, env, s, st, fuel);
            var v := if st.ScopeVar? then EvExp(genv, env, s, st.exp, fuel) else Ran(s, Ok(NULL_REF));
            && (v.res.Fatal? ==> r == v)
            && (v.res.Ok? ==>
                  (LaterReady(s, v.st, genv, env);
                  var en := if st.ScopeVar? then VarEntry(st.name, v.res.value) else CodeEntry(st.name, st.args, st.body);
                  && r.res == Ok(NULL_REF) && r.st.out == v.st.out
                  && forall name :: Visible(r.st.heap, env, name)
                                    == if LookupFrame(v.st.heap[env].entries, name).Some? || !Same(st.name, name)
                                       then Visible(v.st.heap, env, name) else Some(en)))
  {
    hide EvExp, Visible, Same, LookupFrame;
    var v := if st.ScopeVar? then EvExp(genv, env, s, st.exp, fuel) else Ran(s, Ok(NULL_REF));
    if v.res.Ok? {
      LaterReady(s, v.st, genv, env);
      var en := if st.ScopeVar? then VarEntry(st.name, v.res.value) else CodeEntry(st.name, st.args, st.body);
      forall name
        ensures Visible(Added(v.st.heap, env, en), env, name)
                == if LookupFrame(v.st.heap[env].entries, name).Some? || !Same(st.name, name)
                   then Visible(v.st.heap, env, name) else Some(en)
      {
        AddEntryVisible(v.st.heap, env, en, name);
      }
    }
  }

  class Interp {
    var heap: seq<Obj>
    var output: seq<Printed>

    ghost predicate Valid()
      reads this
    {
      HeapOk(heap)
    }

    /** The state as the evaluation functions see it. */
    function Now(): St
      reads this
    {
      St(heap, output)
    }

    /** The method left the state `x` gives and returned its result. */
    ghost predicate Follows<T>(r: Result<T>, x: Ran<T>)
      reads this
    {
      heap == x.st.heap && output == x.st.out && r == x.res
    }

    /** init_eval: the arena holds the shared null and the shared zero. */
    constructor()
      ensures Valid() && heap == [NullObj, IntObj(0)] && output == []
    {
      heap := [NullObj, IntObj(0)];
      output := [];
    }

    method Alloc(o: Obj) returns (r: Ref)
      requires Valid() && ObjOk(o, |heap|, |heap| + 1)
      modifies this
      ensures Grows(old(heap), old(output), heap, output)
      ensures Valid() && heap == old(heap) + [o] && r == |old(heap)| && output == old(output)
    {
      HeapOkAppend(heap, o);
      r := |heap|;
      heap := heap + [o];
    }

    /** make_IntObj. */
    method MakeInt(v: int) returns (r: Ref)
      requires Valid()
      modifies this
      ensures Grows(old(heap), old(output), heap, output)
      ensures Valid() && heap == old(heap) + [IntObj(v)] && r == |old(heap)| && output == old(output)
    {
      r := Alloc(IntObj(v));
    }

    /** make_Env: a fresh environment with no entries. */
    method MakeEnv(parent: Ref) returns (r: Ref)
      requires Valid() && parent < |heap|
      modifies this
      ensures Grows(old(heap), old(output), heap, output)
      ensures Valid() && heap == old(heap) + [EnvObj(parent, [])] && r == |old(heap)| && output == old(output)
    {
      r := Alloc(EnvObj(parent, []));
    }

    /** make_ArrayObj: `length` items all set to `x`; a negative length
        gives no items. */
    method MakeArray(length: int, x: Ref) returns (r: Ref)
      requires Valid() && x < |heap|
      modifies this
      ensures Grows(old(heap), old(output), heap, output)
      ensures Valid() && r == |old(heap)| && output == old(output)
      ensures heap == old(heap) + [ArrayObj(length, Repeat(if length < 0 then 0 else length, x))]
    {
      var items: seq<Ref> := [];
      var i := 0;
      while i < length
        invariant 0 <= i && (length >= 0 ==> i <= length) && (length < 0 ==> i == 0)
        invariant items == Repeat(i, x)
      {
        items := items + [x];
        i := i + 1;
      }
      assert forall k :: 0 <= k < |items| ==> items[k] == x;
      r := Alloc(ArrayObj(length, items));
    }

    /** vector_add on an environment's entries. */
    method AddEntry(env: Ref, en: Entry)
      requires Valid() && IsEnv(heap, env) && EntryOk(en, |heap|)
      modifies this
      ensures Grows(old(heap), old(output), heap, output)
      ensures Valid() && output == old(output) && heap == Added(old(heap), env, en)
    {
      ScopeAdded(heap, env, en);
      heap := Added(heap, env, en);
    }

    /** `var->value = v` on the entry at `at`. */
    method SetVar(at: (Ref, nat), v: Ref)
      requires Valid() && IsEnv(heap, at.0) && at.1 < |heap[at.0].entries|
      requires heap[at.0].entries[at.1].VarEntry? && v < |heap|
      modifies this
      ensures Grows(old(heap), old(output), heap, output)
      ensures Valid() && output == old(output)
      ensures heap == old(heap)[at.0 := EnvObj(old(heap)[at.0].parent,
                        old(heap)[at.0].entries[at.1 := old(heap)[at.0].entries[at.1].(value := v)])]
    {
      var o := heap[at.0];
      assert ObjOk(o, at.0, |heap|);
      var o' := EnvObj(o.parent, o.entries[at.1 := o.entries[at.1].(value := v)]);
      assert ObjOk(o', at.0, |heap|);
      HeapOkUpdate(heap, at.0, o');
      heap := heap[at.0 := o'];
    }

    /** `obj->items[i] = x`. */
    method SetItem(arr: Ref, i: nat, x: Ref)
      requires Valid() && arr < |heap| && heap[arr].ArrayObj? && i < |heap[arr].items| && x < |heap|
      modifies this
      ensures Grows(old(heap), old(output), heap, output)
      ensures Valid() && output == old(output)
      ensures heap == Stored(old(heap), arr, i, x)
    {
      var o := heap[arr];
      var o' := ArrayObj(o.length, o.items[i := x]);
      assert ObjOk(o', arr, |heap|);
      HeapOkUpdate(heap, arr, o');
      heap := heap[arr := o'];
    }

    /** print_format: prints the format up to its NUL, each `~` showing
        the next value; fatal unless the `~` count is the value count. */
    method PrintFormat(fmt: string, vs: seq<Ref>) returns (r: Outcome)
      requires Valid()
      modifies this
      ensures Grows(old(heap), old(output), heap, output)
      ensures Valid() && heap == old(heap) && old(output) <= output
      ensures r.Pass? <==> Format(fmt, 0, vs).Ok?
      ensures r.Pass? ==> output == old(output) + Format(fmt, 0, vs).value
      ensures output == old(output) + Prints(fmt, 0, vs)
      ensures r.Fail? ==> r.msg == PRINTF_ARGS
    {
      var i, j := 0, 0;
      var printed: seq<Printed> := [];
      assert fmt[0..] == fmt;
      if Format(fmt, 0, vs).Ok? {
        assert [] + Format(fmt, 0, vs).value == Format(fmt, 0, vs).value;
      }
      while j < |fmt| && fmt[j] != '\0'
        invariant j <= |fmt| && i <= |vs|
        invariant Format(fmt, 0, vs) == Then(printed, Format(fmt[j..], i, vs))
        invariant Prints(fmt, 0, vs) == printed + Prints(fmt[j..], i, vs)
        invariant output == old(output) + printed && heap == old(heap)
      {
        hide Format, Prints, Valid;
        assert fmt[j..][1..] == fmt[j + 1..];
        if fmt[j] == '~' {
          if i >= |vs| {
            return Fail(PRINTF_ARGS);
          }
          FormatStep(printed, fmt[j..], i, vs);
          PrintsStep(printed, fmt[j..], i, vs);
          output := output + [Shown(vs[i])];
          printed := printed + [Shown(vs[i])];
          i := i + 1;
        } else {
          FormatStep(printed, fmt[j..], i, vs);
          PrintsStep(printed, fmt[j..], i, vs);
          output := output + [Text(fmt[j])];
          printed := printed + [Text(fmt[j])];
        }
        j := j + 1;
      }
      if i != |vs| {
        return Fail(PRINTF_ARGS);
      }
      r := Pass;
    }

    /** A call frame: a fresh environment under `parent`, then "this"
        when there is a receiver, then each parameter, added in order. */
    method MakeFrame(parent: Ref, self: Option<Ref>, params: seq<string>, vs: seq<Ref>) returns (fenv: Ref)
      requires Valid() && parent < |heap| && |params| == |vs| && Refs(heap, vs)
      requires self.Some? ==> self.value < |heap|
      modifies this
      ensures Grows(old(heap), old(output), heap, output)
      ensures Valid() && output == old(output) && fenv == |old(heap)|
      ensures heap == old(heap) + [EnvObj(parent, Frame(self, params, vs))]
    {
      fenv := MakeEnv(parent);
      if self.Some? {
        AddEntry(fenv, VarEntry("this", self.value));
        assert [] + [VarEntry("this", self.value)] == [VarEntry("this", self.value)];
        assert heap == old(heap) + [EnvObj(parent, [VarEntry("this", self.value)])];
      }
      assert Frame(self, params[..0], vs[..0]) == if self.Some? then [VarEntry("this", self.value)] else [];
      var i := 0;
      while i < |params|
        invariant i <= |params| && Valid() && output == old(output)
        invariant heap == old(heap) + [EnvObj(parent, Frame(self, params[..i], vs[..i]))]
      {
        assert Frame(self, params[..i + 1], vs[..i + 1])
               == Frame(self, params[..i], vs[..i]) + [VarEntry(params[i], vs[i])];
        AddEntry(fenv, VarEntry(params[i], vs[i]));
        i := i + 1;
      }
      assert params[..i] == params && vs[..i] == vs;
    }

    /** eval_exp. */
    method EvalExp(genv: Ref, env: Ref, e: Exp, fuel: nat) returns (r: Result<Ref>)
      requires Valid() && IsEnv(heap, genv) && IsEnv(heap, env)
      modifies this
      ensures Grows(old(heap), old(output), heap, output)
      ensures Follows(r, EvExp(genv, env, old(Now()), e, fuel))
      decreases fuel, e, 1
    {
      hide Visible, Scope, LookupVar, LookupFn, LookupEnv, LookupFrame, Same, CString, Format, Tildes, IntOp, Assigned, Added, Frame, HeapOk, ObjOk;
      hide EvExps, EvPrintf, EvArray, EvObject, EvSlots, EvSlot, EvSetSlot, EvSet, EvBody, EvCall, EvCallSlot, EvIntSlot, EvArraySlot, EvArrayGet, EvArraySet, EvIf, EvWhile, EvStmt, RefValue;
      match e
      case IntExp(v) =>
        var o := MakeInt(v);
        r := Ok(o);
      case NullExp =>
        r := Ok(NULL_REF);
      case PrintfExp(_, _) =>
        r := EvalPrintf(genv, env, e, fuel);
      case ArrayExp(_, _) =>
        r := EvalArray(genv, env, e, fuel);
      case ObjectExp(_, _) =>
        r := EvalObject(genv, env, e, fuel);
      case SlotExp(_, _) =>
        r := EvalSlot(genv, env, e, fuel);
      case SetSlotExp(_, _, _) =>
        r := EvalSetSlot(genv, env, e, fuel);
      case CallSlotExp(name, x, args) =>
        var o :- EvalExp(genv, env, x, fuel);
        r := CallSlot(genv, env, o, name, args, fuel);
      case CallExp(_, _) =>
        r := EvalCall(genv, env, e, fuel);
      case SetExp(_, _) =>
        r := EvalSet(genv, env, e, fuel);
      case IfExp(_, _, _) =>
        r := EvalIf(genv, env, e, fuel);
      case WhileExp(_, _) =>
        r := EvalWhile(genv, env, e, fuel);
      case RefExp(name) =>
        r := RefValue(heap, env, name);
    }

    /** The arguments of a call or a printf, evaluated left to right. */
    method EvalExps(genv: Ref, env: Ref, es: seq<Exp>, fuel: nat) returns (r: Result<seq<Ref>>)
      requires Valid() && IsEnv(heap, genv) && IsEnv(heap, env)
      modifies this
      ensures Grows(old(heap), old(output), heap, output)
      ensures Follows(r, EvExps(genv, env, old(Now()), es, fuel))
      decreases fuel, es, 0
    {
      hide Visible, Scope, LookupVar, LookupFn, LookupEnv, LookupFrame, Same, CString, Format, Tildes, IntOp, Assigned, Added, Frame, HeapOk, ObjOk;
      hide EvExp;
      ghost var s0 := Now();
      var vs: seq<Ref> := [];
      var i := 0;
      assert es[0..] == es;
      JoinedNil(EvExps(genv, env, s0, es, fuel));
      while i < |es|
        invariant i <= |es| && |vs| == i
        invariant Grows(old(heap), old(output), heap, output) && IsEnv(heap, genv) && IsEnv(heap, env)
        invariant EvExps(genv, env, s0, es, fuel) == Joined(vs, EvExps(genv, env, Now(), es[i..], fuel))
      {
        ghost var s1 := Now();
        assert es[i..][0] == es[i] && es[i..][1..] == es[i + 1..];
        var v :- EvalExp(genv, env, es[i], fuel);
        assert EvExps(genv, env, s1, es[i..], fuel) == Joined([v], EvExps(genv, env, Now(), es[i + 1..], fuel));
        JoinedAppend(vs, [v], EvExps(genv, env, Now(), es[i + 1..], fuel));
        vs := vs + [v];
        i := i + 1;
      }
      assert vs + [] == vs;
      r := Ok(vs);
    }

    method EvalPrintf(genv: Ref, env: Ref, e: Exp, fuel: nat) returns (r: Result<Ref>)
      requires Valid() && IsEnv(heap, genv) && IsEnv(heap, env) && e.PrintfExp?
      modifies this
      ensures Grows(old(heap), old(output), heap, output)
      ensures Follows(r, EvPrintf(genv, env, old(Now()), e, fuel))
      decreases fuel, e, 0
    {
      hide Visible, Scope, LookupVar, LookupFn, LookupEnv, LookupFrame, Same, CString, Format, Tildes, IntOp, Assigned, Added, Frame, HeapOk, ObjOk;
      hide EvExp, EvExps, Prints;
      var vs :- EvalExps(genv, env, e.exps, fuel);
      var printed := PrintFormat(e.format, vs);
      if printed.Fail? {
        return Fatal(printed.msg);
      }
      r := Ok(NULL_REF);
    }

    method EvalArray(genv: Ref, env: Ref, e: Exp, fuel: nat) returns (r: Result<Ref>)
      requires Valid() && IsEnv(heap, genv) && IsEnv(heap, env) && e.ArrayExp?
      modifies this
      ensures Grows(old(heap), old(output), heap, output)
      ensures Follows(r, EvArray(genv, env, old(Now()), e, fuel))
      decreases fuel, e, 0
    {
      hide Visible, Scope, LookupVar, LookupFn, LookupEnv, LookupFrame, Same, CString, Format, Tildes, IntOp, Assigned, Added, Frame, HeapOk, ObjOk;
      hide EvExp;
      var n :- EvalExp(genv, env, e.length, fuel);
      var x :- EvalExp(genv, env, e.init, fuel);
      if !heap[n].IntObj? {
        return Fatal(NOT_INT);
      }
      var a := MakeArray(heap[n].value, x);
      r := Ok(a);
    }

    method EvalObject(genv: Ref, env: Ref, e: Exp, fuel: nat) returns (r: Result<Ref>)
      requires Valid() && IsEnv(heap, genv) && IsEnv(heap, env) && e.ObjectExp?
      modifies this
      ensures Grows(old(heap), old(output), heap, output)
      ensures Follows(r, EvObject(genv, env, old(Now()), e, fuel))
      decreases fuel, e, 0
    {
      hide Visible, Scope, LookupVar, LookupFn, LookupEnv, LookupFrame, Same, CString, Format, Tildes, IntOp, Assigned, Added, Frame;
      hide EvExp, EvSlots;
      var p :- EvalExp(genv, env, e.parent, fuel);
      if !(heap[p].NullObj? || heap[p].EnvObj?) {
        return Fatal(NOT_PARENT);
      }
      var es :- EvalSlots(genv, env, e.slots, fuel);
      var o := Alloc(EnvObj(p, es));
      r := Ok(o);
    }

    method EvalSlots(genv: Ref, env: Ref, slots: seq<SlotStmt>, fuel: nat) returns (r: Result<seq<Entry>>)
      requires Valid() && IsEnv(heap, genv) && IsEnv(heap, env)
      modifies this
      ensures Grows(old(heap), old(output), heap, output)
      ensures Follows(r, EvSlots(genv, env, old(Now()), slots, fuel))
      decreases fuel, slots, 0
    {
      hide Visible, Scope, LookupVar, LookupFn, LookupEnv, LookupFrame, Same, CString, Format, Tildes, IntOp, Assigned, Added, Frame, HeapOk, ObjOk;
      hide EvExp;
      ghost var s0 := Now();
      var es: seq<Entry> := [];
      var i := 0;
      assert slots[0..] == slots;
      JoinedNil(EvSlots(genv, env, s0, slots, fuel));
      while i < |slots|
        invariant i <= |slots|
        invariant Grows(old(heap), old(output), heap, output) && IsEnv(heap, genv) && IsEnv(heap, env)
        invariant EvSlots(genv, env, s0, slots, fuel) == Joined(es, EvSlots(genv, env, Now(), slots[i..], fuel))
      {
        ghost var s1 := Now();
        assert slots[i..][0] == slots[i] && slots[i..][1..] == slots[i + 1..];
        var en: Entry;
        match slots[i] {
          case SlotVar(name, x) =>
            var v :- EvalExp(genv, env, x, fuel);
            en := VarEntry(name, v);
          case SlotMethod(name, args, body) =>
            en := CodeEntry(name, args, body);
        }
        assert EvSlots(genv, env, s1, slots[i..], fuel) == Joined([en], EvSlots(genv, env, Now(), slots[i + 1..], fuel));
        JoinedAppend(es, [en], EvSlots(genv, env, Now(), slots[i + 1..], fuel));
        es := es + [en];
        i := i + 1;
      }
      assert es + [] == es;
      r := Ok(es);
    }

    method EvalSlot(genv: Ref, env: Ref, e: Exp, fuel: nat) returns (r: Result<Ref>)
      requires Valid() && IsEnv(heap, genv) && IsEnv(heap, env) && e.SlotExp?
      modifies this
      ensures Grows(old(heap), old(output), heap, output)
      ensures Follows(r, EvSlot(genv, env, old(Now()), e, fuel))
      decreases fuel, e, 0
    {
      hide Visible, Scope, LookupVar, LookupFn, LookupEnv, LookupFrame, Same, CString, Format, Tildes, IntOp, Assigned, Added, Frame;
      hide EvExp, RefValue;
      var o :- EvalExp(genv, env, e.exp, fuel);
      if !heap[o].EnvObj? {
        return Fatal(NOT_OBJECT);
      }
      r := RefValue(heap, o, e.name);
    }

    /** Assigns `v` to the variable `name` denotes from `env`. */
    method Assign(env: Ref, name: string, v: Ref) returns (r: Outcome)
      requires Valid() && IsEnv(heap, env) && v < |heap|
      modifies this
      ensures Grows(old(heap), old(output), heap, output)
      ensures Valid() && output == old(output)
      ensures r.Pass? <==> Visible(old(heap), env, name).Some? && Visible(old(heap), env, name).value.VarEntry?
      ensures r.Pass? ==> heap == Assigned(old(heap), LookupVar(old(heap), env, name).value, v)
      ensures r.Fail? ==> heap == old(heap) && r.msg == LookupVar(old(heap), env, name).msg
    {
      var at := LookupVar(heap, env, name);
      if at.Fatal? {
        return Fail(at.msg);
      }
      AssignedVisible(heap, env, name, v);
      heap := Assigned(heap, at.value, v);
      r := Pass;
    }

    method EvalSetSlot(genv: Ref, env: Ref, e: Exp, fuel: nat) returns (r: Result<Ref>)
      requires Valid() && IsEnv(heap, genv) && IsEnv(heap, env) && e.SetSlotExp?
      modifies this
      ensures Grows(old(heap), old(output), heap, output)
      ensures Follows(r, EvSetSlot(genv, env, old(Now()), e, fuel))
      decreases fuel, e, 0
    {
      hide Visible, Scope, LookupVar, LookupFn, LookupEnv, LookupFrame, Same, CString, Format, Tildes, IntOp, Assigned, Added, Frame, HeapOk, ObjOk;
      hide EvExp;
      var o :- EvalExp(genv, env, e.exp, fuel);
      if !heap[o].EnvObj? {
        return Fatal(NOT_OBJECT);
      }
      var v :- EvalExp(genv, env, e.newValue, fuel);
      var done := Assign(o, e.name, v);
      if done.Fail? {
        return Fatal(done.msg);
      }
      r := Ok(NULL_REF);
    }

    method EvalSet(genv: Ref, env: Ref, e: Exp, fuel: nat) returns (r: Result<Ref>)
      requires Valid() && IsEnv(heap, genv) && IsEnv(heap, env) && e.SetExp?
      modifies this
      ensures Grows(old(heap), old(output), heap, output)
      ensures Follows(r, EvSet(genv, env, old(Now()), e, fuel))
      decreases fuel, e, 0
    {
      hide Visible, Scope, LookupVar, LookupFn, LookupEnv, LookupFrame, Same, CString, Format, Tildes, IntOp, Assigned, Added, Frame, HeapOk, ObjOk;
      hide EvExp;
      var v :- EvalExp(genv, env, e.exp, fuel);
      var done := Assign(env, e.name, v);
      if done.Fail? {
        return Fatal(done.msg);
      }
      r := Ok(NULL_REF);
    }

    /** A call's body in a fresh frame under the global environment:
        "this" first when there is a receiver, then the parameters. */
    method CallBody(genv: Ref, self: Option<Ref>, f: Entry, vs: seq<Ref>, fuel: nat) returns (r: Result<Ref>)
      requires Valid() && IsEnv(heap, genv) && f.CodeEntry? && |f.args| == |vs| && Refs(heap, vs)
      requires self.Some? ==> self.value < |heap|
      modifies this
      ensures Grows(old(heap), old(output), heap, output)
      ensures Follows(r, EvBody(genv, old(Now()), self, f, vs, fuel))
      decreases fuel, f.body, 2
    {
      hide Visible, Scope, LookupVar, LookupFn, LookupEnv, LookupFrame, Same, CString, Format, Tildes, IntOp, Assigned, Added, Frame, HeapOk, ObjOk;
      hide EvStmt;
      var fenv := MakeFrame(genv, self, f.args, vs);
      r := EvalStmt(genv, fenv, f.body, fuel);
    }

    /** A plain function call: the callee's frame lies under the global
        environment and binds its parameters only. */
    method EvalCall(genv: Ref, env: Ref, e: Exp, fuel: nat) returns (r: Result<Ref>)
      requires Valid() && IsEnv(heap, genv) && IsEnv(heap, env) && e.CallExp?
      modifies this
      ensures Grows(old(heap), old(output), heap, output)
      ensures Follows(r, EvCall(genv, env, old(Now()), e, fuel))
      decreases fuel, e, 0
    {
      hide Visible, Scope, LookupVar, LookupFn, LookupEnv, LookupFrame, Same, CString, Format, Tildes, IntOp, Assigned, Added, Frame, HeapOk, ObjOk;
      hide EvExps, EvBody;
      var f :- LookupFn(heap, env, e.name);
      if |e.args| != |f.args| {
        return Fatal(NARGS);
      }
      var vs :- EvalExps(genv, env, e.args, fuel);
      if fuel == 0 {
        return Fatal(OUT_OF_FUEL);
      }
      r := CallBody(genv, None, f, vs, fuel - 1);
    }

    /** call_slot: the receiver's kind picks the primitive or the method. */
    method CallSlot(genv: Ref, env: Ref, obj: Ref, name: string, args: seq<Exp>, fuel: nat) returns (r: Result<Ref>)
      requires Valid() && IsEnv(heap, genv) && IsEnv(heap, env) && obj < |heap|
      modifies this
      ensures Grows(old(heap), old(output), heap, output)
      ensures Follows(r, EvCallSlot(genv, env, old(Now()), obj, name, args, fuel))
      decreases fuel, args, 2
    {
      hide Visible, Scope, LookupVar, LookupFn, LookupEnv, LookupFrame, Same, CString, Format, Tildes, IntOp, Assigned, Added, Frame, HeapOk, ObjOk;
      hide EvExps, EvBody, EvIntSlot, EvArraySlot;
      match heap[obj]
      case NullObj =>
        r := Fatal("No slot named " + name + " for null.");
      case IntObj(_) =>
        r := CallIntSlot(genv, env, obj, name, args, fuel);
      case ArrayObj(_, _) =>
        r := CallArraySlot(genv, env, obj, name, args, fuel);
      case EnvObj(_, _) =>
        var m :- LookupFn(heap, obj, name);
        if |args| != |m.args| {
          return Fatal(NARGS);
        }
        var vs :- EvalExps(genv, env, args, fuel);
        if fuel == 0 {
          return Fatal(OUT_OF_FUEL);
        }
        r := CallBody(genv, Some(obj), m, vs, fuel - 1);
    }

    /** call_int_slot: one integer argument, evaluated before the name is
        looked at. */
    method CallIntSlot(genv: Ref, env: Ref, obj: Ref, name: string, args: seq<Exp>, fuel: nat) returns (r: Result<Ref>)
      requires Valid() && IsEnv(heap, genv) && IsEnv(heap, env) && obj < |heap| && heap[obj].IntObj?
      modifies this
      ensures Grows(old(heap), old(output), heap, output)
      ensures Follows(r, EvIntSlot(genv, env, old(Now()), obj, name, args, fuel))
      decreases fuel, args, 0
    {
      hide Visible, Scope, LookupVar, LookupFn, LookupEnv, LookupFrame, Same, CString, Format, Tildes, IntOp, Assigned, Added, Frame;
      hide EvExp;
      if |args| != 1 {
        return Fatal(NARGS);
      }
      var x :- EvalExp(genv, env, args[0], fuel);
      if !heap[x].IntObj? {
        return Fatal(NOT_INT);
      }
      var res :- IntOp(name, heap[obj].value, heap[x].value);
      match res
      case Bool(b) =>
        r := Ok(BoolObj(b));
      case Int(i) =>
        var o := MakeInt(i);
        r := Ok(o);
    }

    /** call_array_slot: get, set and length on an array receiver. */
    method CallArraySlot(genv: Ref, env: Ref, arr: Ref, name: string, args: seq<Exp>, fuel: nat) returns (r: Result<Ref>)
      requires Valid() && IsEnv(heap, genv) && IsEnv(heap, env) && arr < |heap| && heap[arr].ArrayObj?
      modifies this
      ensures Grows(old(heap), old(output), heap, output)
      ensures Follows(r, EvArraySlot(genv, env, old(Now()), arr, name, args, fuel))
      decreases fuel, args, 1
    {
      hide Visible, Scope, LookupVar, LookupFn, LookupEnv, LookupFrame, Same, Format, Tildes, IntOp, Assigned, Added, Frame, HeapOk, ObjOk;
      hide EvArrayGet, EvArraySet;
      var n := CString(name);
      hide CString;
      if n == "get" {
        r := ArrayGet(genv, env, arr, args, fuel);
      } else if n == "set" {
        r := ArraySet(genv, env, arr, args, fuel);
      } else if n == "length" {
        if |args| != 0 {
          return Fatal(NARGS);
        }
        var o := MakeInt(heap[arr].length);
        r := Ok(o);
      } else {
        r := Fatal("No slot named " + name + " for Array.");
      }
    }

    /** The array slot get: the item at an in-bounds integer index. */
    method ArrayGet(genv: Ref, env: Ref, arr: Ref, args: seq<Exp>, fuel: nat) returns (r: Result<Ref>)
      requires Valid() && IsEnv(heap, genv) && IsEnv(heap, env) && arr < |heap| && heap[arr].ArrayObj?
      modifies this
      ensures Grows(old(heap), old(output), heap, output)
      ensures Follows(r, EvArrayGet(genv, env, old(Now()), arr, args, fuel))
      decreases fuel, args, 0
    {
      hide Visible, Scope, LookupVar, LookupFn, LookupEnv, LookupFrame, Same, CString, Format, Tildes, IntOp, Assigned, Added, Frame, HeapOk, ObjOk;
      hide EvExp;
      if |args| != 1 {
        return Fatal(NARGS);
      }
      var i :- EvalExp(genv, env, args[0], fuel);
      var k :- EnsureIndex(heap, arr, i);
      r := Ok(heap[arr].items[k]);
    }

    /** The array slot set: the value is stored at an in-bounds integer
        index, both arguments being evaluated before the index is checked. */
    method ArraySet(genv: Ref, env: Ref, arr: Ref, args: seq<Exp>, fuel: nat) returns (r: Result<Ref>)
      requires Valid() && IsEnv(heap, genv) && IsEnv(heap, env) && arr < |heap| && heap[arr].ArrayObj?
      modifies this
      ensures Grows(old(heap), old(output), heap, output)
      ensures Follows(r, EvArraySet(genv, env, old(Now()), arr, args, fuel))
      decreases fuel, args, 0
    {
      hide Visible, Scope, LookupVar, LookupFn, LookupEnv, LookupFrame, Same, CString, Format, Tildes, IntOp, Assigned, Added, Frame, HeapOk, ObjOk;
      hide EvExp;
      if |args| != 2 {
        return Fatal(NARGS);
      }
      var i :- EvalExp(genv, env, args[0], fuel);
      var x :- EvalExp(genv, env, args[1], fuel);
      var k :- EnsureIndex(heap, arr, i);
      SetItem(arr, k, x);
      r := Ok(NULL_REF);
    }

    /** IF: the consequent runs exactly when the predicate is not null,
        in a fresh environment under the current one. */
    method EvalIf(genv: Ref, env: Ref, e: Exp, fuel: nat) returns (r: Result<Ref>)
      requires Valid() && IsEnv(heap, genv) && IsEnv(heap, env) && e.IfExp?
      modifies this
      ensures Grows(old(heap), old(output), heap, output)
      ensures Follows(r, EvIf(genv, env, old(Now()), e, fuel))
      decreases fuel, e, 0
    {
      hide Visible, Scope, LookupVar, LookupFn, LookupEnv, LookupFrame, Same, CString, Format, Tildes, IntOp, Assigned, Added, Frame, HeapOk, ObjOk;
      hide EvExp, EvStmt;
      var p :- EvalExp(genv, env, e.pred, fuel);
      var yes := Truthy(heap, p);
      var benv := MakeEnv(env);
      if yes {
        r := EvalStmt(genv, benv, e.conseq, fuel);
      } else {
        r := EvalStmt(genv, benv, e.alt, fuel);
      }
    }

    /** WHILE: the body runs, each time in a fresh environment, until the
        predicate is null; each round spends one unit of fuel. */
    method EvalWhile(genv: Ref, env: Ref, e: Exp, fuel: nat) returns (r: Result<Ref>)
      requires Valid() && IsEnv(heap, genv) && IsEnv(heap, env) && e.WhileExp?
      modifies this
      ensures Grows(old(heap), old(output), heap, output)
      ensures Follows(r, EvWhile(genv, env, old(Now()), e, fuel))
      decreases fuel, e, 0
    {
      hide Visible, Scope, LookupVar, LookupFn, LookupEnv, LookupFrame, Same, CString, Format, Tildes, IntOp, Assigned, Added, Frame, HeapOk, ObjOk;
      hide EvExp, EvStmt;
      var f: nat := fuel;
      while true
        invariant f <= fuel
        invariant Grows(old(heap), old(output), heap, output) && IsEnv(heap, genv) && IsEnv(heap, env)
        invariant EvWhile(genv, env, old(Now()), e, fuel) == EvWhile(genv, env, Now(), e, f)
        decreases f
      {
        var p :- EvalExp(genv, env, e.pred, f);
        if !Truthy(heap, p) {
          return Ok(NULL_REF);
        }
        if f == 0 {
          return Fatal(OUT_OF_FUEL);
        }
        var benv := MakeEnv(env);
        var _ :- EvalStmt(genv, benv, e.body, f);
        f := f - 1;
      }
    }

    /** eval_stmt. */
    method EvalStmt(genv: Ref, env: Ref, st: ScopeStmt, fuel: nat) returns (r: Result<Ref>)
      requires Valid() && IsEnv(heap, genv) && IsEnv(heap, env)
      modifies this
      ensures Grows(old(heap), old(output), heap, output)
      ensures Follows(r, EvStmt(genv, env, old(Now()), st, fuel))
      decreases fuel, st, 1
    {
      hide Visible, Scope, LookupVar, LookupFn, LookupEnv, LookupFrame, Same, CString, Format, Tildes, IntOp, Assigned, Added, Frame, HeapOk, ObjOk;
      hide EvExp;
      match st
      case ScopeVar(name, x) =>
        var v :- EvalExp(genv, env, x, fuel);
        AddEntry(env, VarEntry(name, v));
        r := Ok(NULL_REF);
      case ScopeFn(name, args, body) =>
        AddEntry(env, CodeEntry(name, args, body));
        r := Ok(NULL_REF);
      case ScopeSeq(a, b) =>
        var _ :- EvalStmt(genv, env, a, fuel);
        r := EvalStmt(genv, env, b, fuel);
      case ScopeExp(x) =>
        r := EvalExp(genv, env, x, fuel);
    }
  }

  /** The run of a whole program: a fresh global environment whose
      parent is null, in an arena holding the shared null and zero. */
  function Interpretation(stmt: ScopeStmt, fuel: nat): (r: Ran<Ref>)
  {
    var s := St([NullObj, IntObj(0), EnvObj(NULL_REF, [])], []);
    assert ObjOk(s.heap[2], 2, 3);
    EvStmt(2, 2, s, stmt, fuel)
  }

  /** interpret: the program runs in a fresh global environment whose
      parent is null; what it printed is returned with its outcome. */
  method Interpret(stmt: ScopeStmt, fuel: nat) returns (out: seq<Printed>, r: Outcome)
    ensures out == Interpretation(stmt, fuel).st.out
    ensures r.Pass? <==> Interpretation(stmt, fuel).res.Ok?
    ensures r.Fail? ==> r.msg == Interpretation(stmt, fuel).res.msg
    ensures stmt.ScopeFn? ==> r == Pass && out == []
  {
    var it := new Interp();
    var genv := it.MakeEnv(NULL_REF);
    assert it.Now() == St([NullObj, IntObj(0), EnvObj(NULL_REF, [])], []);
    var res := it.EvalStmt(genv, genv, stmt, fuel);
    out := it.output;
    r := if res.Ok? then Pass else Fail(res.msg);
  }
}
