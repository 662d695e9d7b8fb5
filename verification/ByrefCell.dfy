/** A __block variable is one shared cell, however often closures that capture
    it are copied to the heap: forwarding pointers refine a plain variable. */
module ByrefCell {
  import opened BlockFlags
  import opened BlockMemory

  type Var = nat
  type Cap = nat

  /** How code reaches a variable: from its own frame (or an uncopied closure),
      or through the pointer held by copied closure k. */
  datatype Src = Frame(v: Var) | Closure(v: Var, k: Cap)

  datatype Captured = Captured(v: Var, p: Addr)

  /** `home` is the stack byref of each variable in scope, `caps` the pointers
      held by copied closures. `spot` and `moves` are history: where the
      variable's storage is, and how often it was moved. */
  datatype State = State(mem: Mem, home: map<Var, Addr>, caps: map<Cap, Captured>,
                         spot: map<Var, Addr>, moves: map<Var, nat>)

  datatype Event =
    | Declare(v: Var, word: nat, x: int)
    | Capture(src: Src, k: Cap)         // _Block_object_assign with BLOCK_FIELD_IS_BYREF
    | Read(src: Src)
    | Write(src: Src, x: int)
    | Drop(v: Var, k: Cap)              // _Block_object_dispose with BLOCK_FIELD_IS_BYREF
    | Leave(v: Var)                     // end of scope: the frame disposes of its byref

  predicate Reaches(s: State, src: Src) {
    match src
    case Frame(v) => v in s.home
    case Closure(v, k) => k in s.caps && s.caps[k].v == v
  }

  function Pointer(s: State, src: Src): Addr
    requires Reaches(s, src)
  {
    if src.Frame? then s.home[src.v] else s.caps[src.k].p
  }

  predicate Enabled(s: State, e: Event) {
    match e
    case Declare(v, word, x) => v !in s.moves && Count(word) == 0 && !NeedsFree(word)
    case Capture(src, k) => Reaches(s, src) && k !in s.caps
    case Read(src) => Reaches(s, src)
    case Write(src, x) => Reaches(s, src)
    case Drop(v, k) => Reaches(s, Closure(v, k))
    case Leave(v) => v in s.home
  }

  /** Compiled accesses go through `ptr->forwarding->value`. */
  function Load(m: Mem, p: Addr): int {
    if IsByref(m, p) && IsByref(m, m.cells[p].forwarding) then m.cells[m.cells[p].forwarding].value else 0
  }

  function Store(m: Mem, p: Addr, x: int): Mem {
    if IsByref(m, p) && IsByref(m, m.cells[p].forwarding) then
      var h := m.cells[p].forwarding;
      m.(cells := m.cells[h := Byref(m.cells[h].word, m.cells[h].forwarding, x)])
    else
      m.(bad := true)
  }

  function Apply(s: State, e: Event): State
    requires Enabled(s, e)
  {
    match e
    case Declare(v, word, x) =>
      var a := s.mem.next;
      s.(mem := s.mem.(cells := s.mem.cells[a := Byref(word, a, x)], next := a + 1),
         home := s.home[v := a], spot := s.spot[v := a], moves := s.moves[v := 0])
    case Capture(src, k) =>
      var (p, m) := ByrefAssignCopy(s.mem, Pointer(s, src));
      var moved := if m.next != s.mem.next && src.v in s.moves then s.moves[src.v := s.moves[src.v] + 1] else s.moves;
      s.(mem := m, caps := s.caps[k := Captured(src.v, p)], spot := s.spot[src.v := p], moves := moved)
    case Read(_) => s
    case Write(src, x) => s.(mem := Store(s.mem, Pointer(s, src), x))
    case Drop(v, k) =>
      Retire(s.(mem := ByrefRelease(s.mem, s.caps[k].p), caps := s.caps - {k}), v)
    case Leave(v) =>
      var m := ByrefRelease(s.mem, s.home[v]);
      Retire(s.(mem := m.(cells := m.cells - {s.home[v]}), home := s.home - {v}), v)
  }

  /** Forget the spot of a variable whose storage is gone. */
  function Retire(s: State, v: Var): State {
    if v in s.spot && s.spot[v] !in s.mem.cells then s.(spot := s.spot - {v}) else s
  }

  // ------------------------------------------------- the plain-variable view

  /** What an ordinary shared variable would hold after the event. */
  function AbsApply(vars: map<Var, int>, e: Event): map<Var, int> {
    match e
    case Declare(v, _, x) => vars[v := x]
    case Write(src, x) => vars[src.v := x]
    case _ => vars
  }

  ghost predicate CanRun(s: State, es: seq<Event>)
    decreases |es|
  {
    es == [] || (Enabled(s, es[0]) && CanRun(Apply(s, es[0]), es[1..]))
  }

  ghost function Exec(s: State, es: seq<Event>): State
    requires CanRun(s, es)
    decreases |es|
  {
    if es == [] then s else Exec(Apply(s, es[0]), es[1..])
  }

  /** The values the reads of a run return. */
  ghost function Reads(s: State, es: seq<Event>): seq<int>
    requires CanRun(s, es)
    decreases |es|
  {
    if es == [] then []
    else (if es[0].Read? then [Load(s.mem, Pointer(s, es[0].src))] else []) + Reads(Apply(s, es[0]), es[1..])
  }

  /** The values the same reads return from plain variables. */
  ghost function AbsReads(vars: map<Var, int>, es: seq<Event>): seq<int>
    decreases |es|
  {
    if es == [] then []
    else
      (if es[0].Read? && es[0].src.v in vars then [vars[es[0].src.v]] else [])
      + AbsReads(AbsApply(vars, es[0]), es[1..])
  }

  // -------------------------------------------------------------- invariant

  ghost function Closures(s: State, v: Var): set<Cap> {
    set k | k in s.caps && s.caps[k].v == v
  }

  ghost function Sharers(s: State, v: Var): nat {
    |Closures(s, v)| + if v in s.home then 1 else 0
  }

  /** Variable v: one storage cell holding its value, reached by every alias
      in one forwarding step; moved iff on the heap; counted by its sharers. */
  ghost predicate VarOk(s: State, vars: map<Var, int>, v: Var)
    requires v in s.spot
  {
    var h := s.spot[v];
    && v in vars && v in s.moves && IsByref(s.mem, h)
    && var c := s.mem.cells[h];
       && c.forwarding == h && c.value == vars[v]
       && (v in s.home ==> IsByref(s.mem, s.home[v]) && s.mem.cells[s.home[v]].forwarding == h
                           && Count(s.mem.cells[s.home[v]].word) == (if s.home[v] == h then Count(c.word) else 0))
       && s.moves[v] == (if NeedsFree(c.word) then 1 else 0)
       && (if NeedsFree(c.word)
           then Count(c.word) > 0 && (v in s.home ==> s.home[v] != h)
                && (!Latched(c.word) ==> Count(c.word) == Sharers(s, v))
           else Count(c.word) == 0 && v in s.home && s.home[v] == h && Closures(s, v) == {})
  }

  /** Storage cells and stack byrefs of different variables are different. */
  ghost predicate Apart(s: State, v: Var, w: Var) {
    v != w ==>
      && (v in s.spot && w in s.spot ==> s.spot[v] != s.spot[w])
      && (v in s.home && w in s.spot ==> s.home[v] != s.spot[w])
      && (v in s.home && w in s.home ==> s.home[v] != s.home[w])
  }

  ghost predicate Inv(s: State, vars: map<Var, int>) {
    && !s.mem.bad
    && (forall a :: a in s.mem.cells ==> a < s.mem.next)
    && s.home.Keys <= s.spot.Keys
    && (forall k :: k in s.caps ==> s.caps[k].v in s.spot && s.caps[k].p == s.spot[s.caps[k].v])
    && (forall v :: v in s.spot ==> VarOk(s, vars, v))
    && (forall v, w :: Apart(s, v, w))
  }

  /** Nothing that VarOk says about w depends on what changed. */
  ghost predicate Untouched(s: State, s': State, vars: map<Var, int>, vars': map<Var, int>, w: Var) {
    && (w in s'.spot <==> w in s.spot) && (w in s.spot ==> s'.spot[w] == s.spot[w])
    && (w in s'.home <==> w in s.home) && (w in s.home ==> s'.home[w] == s.home[w])
    && (w in s'.moves <==> w in s.moves) && (w in s.moves ==> s'.moves[w] == s.moves[w])
    && (w in vars' <==> w in vars) && (w in vars ==> vars'[w] == vars[w])
    && Closures(s', w) == Closures(s, w)
    && (w in s.spot && s.spot[w] in s.mem.cells ==>
          s.spot[w] in s'.mem.cells && s'.mem.cells[s.spot[w]] == s.mem.cells[s.spot[w]])
    && (w in s.home && s.home[w] in s.mem.cells ==>
          s.home[w] in s'.mem.cells && s'.mem.cells[s.home[w]] == s.mem.cells[s.home[w]])
  }

  lemma UntouchedOk(s: State, s': State, vars: map<Var, int>, vars': map<Var, int>, w: Var)
    requires w in s.spot && VarOk(s, vars, w) && Untouched(s, s', vars, vars', w)
    ensures w in s'.spot && VarOk(s', vars', w)
  {
  }

  lemma BelowNext(s: State, vars: map<Var, int>, w: Var)
    requires Inv(s, vars)
    ensures w in s.spot ==> s.spot[w] < s.mem.next
    ensures w in s.home ==> s.home[w] < s.mem.next
  {
    if w in s.spot { assert VarOk(s, vars, w); }
  }

  /** Only v's storage, aliases and home changed. */
  lemma Framed(s: State, s': State, vars: map<Var, int>, vars': map<Var, int>, v: Var)
    requires Inv(s, vars) && !s'.mem.bad
    requires forall a :: a in s'.mem.cells ==> a < s'.mem.next
    requires forall w :: w != v ==> Untouched(s, s', vars, vars', w)
    requires forall k :: k in s'.caps ==> if s'.caps[k].v == v then v in s'.spot && s'.caps[k].p == s'.spot[v]
                                          else k in s.caps && s'.caps[k] == s.caps[k]
    requires v in s'.spot ==>
      VarOk(s', vars', v) && ((v in s.spot && s'.spot[v] == s.spot[v]) || s.mem.next <= s'.spot[v])
    requires v in s'.home ==> v in s'.spot && ((v in s.home && s'.home[v] == s.home[v]) || s.mem.next <= s'.home[v])
    ensures Inv(s', vars')
  {
    forall w | w in s'.spot ensures VarOk(s', vars', w) {
      if w != v {
        assert Untouched(s, s', vars, vars', w);
        UntouchedOk(s, s', vars, vars', w);
      }
    }
    forall w | w in s'.home ensures w in s'.spot {
      if w != v { assert Untouched(s, s', vars, vars', w); }
    }
    forall k | k in s'.caps ensures s'.caps[k].v in s'.spot && s'.caps[k].p == s'.spot[s'.caps[k].v] {
      if s'.caps[k].v != v { assert Untouched(s, s', vars, vars', s'.caps[k].v); }
    }
    forall u, w ensures Apart(s', u, w) {
      assert Apart(s, u, w);
      assert u != v ==> Untouched(s, s', vars, vars', u);
      assert w != v ==> Untouched(s, s', vars, vars', w);
      BelowNext(s, vars, u);
      BelowNext(s, vars, w);
    }
  }

  lemma DeclareKeepsInv(s: State, vars: map<Var, int>, e: Event)
    requires Inv(s, vars) && e.Declare? && Enabled(s, e)
    ensures Inv(Apply(s, e), AbsApply(vars, e))
  {
    var s', vars' := Apply(s, e), AbsApply(vars, e);
    assert e.v !in s.spot;
    assert Closures(s', e.v) == {};
    forall w | w != e.v ensures Untouched(s, s', vars, vars', w) {
      assert Closures(s', w) == Closures(s, w);
    }
    Framed(s, s', vars, vars', e.v);
  }

  lemma ReachedSpot(s: State, vars: map<Var, int>, src: Src)
    requires Inv(s, vars) && Reaches(s, src)
    ensures src.v in s.spot && VarOk(s, vars, src.v)
    ensures IsByref(s.mem, Pointer(s, src)) && s.mem.cells[Pointer(s, src)].forwarding == s.spot[src.v]
  {
    assert VarOk(s, vars, src.v);
  }

  lemma WriteKeepsInv(s: State, vars: map<Var, int>, e: Event)
    requires Inv(s, vars) && e.Write? && Enabled(s, e)
    ensures Inv(Apply(s, e), AbsApply(vars, e))
  {
    var s', vars', v := Apply(s, e), AbsApply(vars, e), e.src.v;
    ReachedSpot(s, vars, e.src);
    assert Closures(s', v) == Closures(s, v);
    forall w | w != v ensures Untouched(s, s', vars, vars', w) {
      assert Apart(s, w, v);
      assert Closures(s', w) == Closures(s, w);
    }
    Framed(s, s', vars, vars', v);
  }

  /** The first copy moves the variable to the heap. */
  lemma MoveOk(s: State, vars: map<Var, int>, e: Event)
    requires Inv(s, vars) && e.Capture? && Enabled(s, e) && e.src.v in s.spot
    requires !NeedsFree(s.mem.cells[s.spot[e.src.v]].word)
    ensures VarOk(Apply(s, e), vars, e.src.v) && s.mem.next <= Apply(s, e).spot[e.src.v]
    ensures !Apply(s, e).mem.bad
  {
    var s', v := Apply(s, e), e.src.v;
    assert VarOk(s, vars, v);
    assert Closures(s', v) == {e.k};
  }

  /** A later copy counts one more sharer. */
  function Shared(s: State, v: Var, k: Cap): State
    requires v in s.spot && IsByref(s.mem, s.spot[v])
  {
    var h := s.spot[v];
    var c := s.mem.cells[h];
    s.(mem := s.mem.(cells := s.mem.cells[h := Byref(Incr(c.word), c.forwarding, c.value)]),
       caps := s.caps[k := Captured(v, h)])
  }

  lemma ShareIs(s: State, vars: map<Var, int>, e: Event)
    requires Inv(s, vars) && e.Capture? && Enabled(s, e) && e.src.v in s.spot
    requires IsByref(s.mem, s.spot[e.src.v]) && NeedsFree(s.mem.cells[s.spot[e.src.v]].word)
    ensures Apply(s, e) == Shared(s, e.src.v, e.k)
  {
    ReachedSpot(s, vars, e.src);
    assert s.spot[e.src.v := s.spot[e.src.v]] == s.spot;
  }

  lemma ShareOk(s: State, vars: map<Var, int>, v: Var, k: Cap)
    requires Inv(s, vars) && k !in s.caps && v in s.spot
    requires IsByref(s.mem, s.spot[v]) && NeedsFree(s.mem.cells[s.spot[v]].word)
    ensures VarOk(Shared(s, v, k), vars, v)
  {
    var s' := Shared(s, v, k);
    assert VarOk(s, vars, v);
    assert Closures(s', v) == Closures(s, v) + {k};
  }

  lemma CaptureSpares(s: State, vars: map<Var, int>, e: Event, w: Var)
    requires Inv(s, vars) && e.Capture? && Enabled(s, e) && w != e.src.v
    ensures Untouched(s, Apply(s, e), vars, vars, w)
  {
    ReachedSpot(s, vars, e.src);
    assert Apart(s, w, e.src.v) && Apart(s, e.src.v, w);
    BelowNext(s, vars, w);
    assert Closures(Apply(s, e), w) == Closures(s, w);
  }

  lemma CaptureKeepsInv(s: State, vars: map<Var, int>, e: Event)
    requires Inv(s, vars) && e.Capture? && Enabled(s, e)
    ensures Inv(Apply(s, e), AbsApply(vars, e))
  {
    var s', v := Apply(s, e), e.src.v;
    ReachedSpot(s, vars, e.src);
    if NeedsFree(s.mem.cells[s.spot[v]].word) {
      ShareIs(s, vars, e);
      ShareOk(s, vars, v, e.k);
    } else {
      MoveOk(s, vars, e);
      assert Closures(s, v) == {};
    }
    forall w | w != v ensures Untouched(s, s', vars, vars, w) { CaptureSpares(s, vars, e, w); }
    forall k | k in s'.caps && s'.caps[k].v == v ensures s'.caps[k].p == s'.spot[v] {
      if k != e.k { assert k in Closures(s, v); }
    }
    Framed(s, s', vars, vars, v);
  }

  /** A sharer other than the one at hand keeps the count above one. */
  lemma LastSharer(s: State, vars: map<Var, int>, v: Var)
    requires Inv(s, vars) && v in s.spot && Count(s.mem.cells[s.spot[v]].word) == 1
    ensures if v in s.home then Closures(s, v) == {} else |Closures(s, v)| == 1
  {
    assert VarOk(s, vars, v);
  }

  lemma DropKeepsInv(s: State, vars: map<Var, int>, e: Event)
    requires Inv(s, vars) && e.Drop? && Enabled(s, e)
    ensures Inv(Apply(s, e), AbsApply(vars, e))
  {
    var s', v := Apply(s, e), e.v;
    ReachedSpot(s, vars, Closure(v, e.k));
    assert e.k in Closures(s, v) && Closures(s', v) == Closures(s, v) - {e.k};
    forall w | w != v ensures Untouched(s, s', vars, vars, w) {
      assert Apart(s, w, v) && Apart(s, v, w);
      assert Closures(s', w) == Closures(s, w);
    }
    if Count(s.mem.cells[s.spot[v]].word) == 1 {
      LastSharer(s, vars, v);
      assert |Closures(s', v)| == 0;
    }
    forall k | k in s'.caps && s'.caps[k].v == v ensures v in s'.spot && s'.caps[k].p == s'.spot[v] {
      assert k in Closures(s', v);
    }
    Framed(s, s', vars, vars, v);
  }

  lemma LeaveKeepsInv(s: State, vars: map<Var, int>, e: Event)
    requires Inv(s, vars) && e.Leave? && Enabled(s, e)
    ensures Inv(Apply(s, e), AbsApply(vars, e))
  {
    var s', v := Apply(s, e), e.v;
    ReachedSpot(s, vars, Frame(v));
    assert Closures(s', v) == Closures(s, v);
    forall w | w != v ensures Untouched(s, s', vars, vars, w) {
      assert Apart(s, w, v) && Apart(s, v, w);
      assert Closures(s', w) == Closures(s, w);
    }
    if Count(s.mem.cells[s.spot[v]].word) == 1 { LastSharer(s, vars, v); }
    forall k | k in s'.caps && s'.caps[k].v == v ensures v in s'.spot && s'.caps[k].p == s'.spot[v] {
      assert k in Closures(s', v);
    }
    Framed(s, s', vars, vars, v);
  }

  lemma StepKeepsInv(s: State, vars: map<Var, int>, e: Event)
    requires Inv(s, vars) && Enabled(s, e)
    ensures Inv(Apply(s, e), AbsApply(vars, e))
  {
    match e
    case Declare(_, _, _) => DeclareKeepsInv(s, vars, e);
    case Capture(_, _) => CaptureKeepsInv(s, vars, e);
    case Read(_) =>
    case Write(_, _) => WriteKeepsInv(s, vars, e);
    case Drop(_, _) => DropKeepsInv(s, vars, e);
    case Leave(_) => LeaveKeepsInv(s, vars, e);
  }

  /** Over every run, each read returns what a plain shared variable would:
      the last value written through any alias. */
  lemma {:induction false} ReadsRefine(s: State, vars: map<Var, int>, es: seq<Event>)
    requires Inv(s, vars) && CanRun(s, es)
    ensures Reads(s, es) == AbsReads(vars, es)
    decreases |es|
  {
    if es != [] {
      StepKeepsInv(s, vars, es[0]);
      if es[0].Read? { ReachedSpot(s, vars, es[0].src); }
      ReadsRefine(Apply(s, es[0]), AbsApply(vars, es[0]), es[1..]);
    }
  }

  predicate Initial(s: State) {
    s.mem.cells == map[] && !s.mem.bad && s.home == map[] && s.caps == map[] && s.spot == map[] && s.moves == map[]
  }

  /** The run from an empty memory, against plain variables none of which exists yet. */
  lemma EveryReadSeesLastWrite(s0: State, es: seq<Event>)
    requires Initial(s0) && CanRun(s0, es)
    ensures Reads(s0, es) == AbsReads(map[], es)
  {
    ReadsRefine(s0, map[], es);
  }

  ghost function AbsExec(vars: map<Var, int>, es: seq<Event>): map<Var, int>
    decreases |es|
  {
    if es == [] then vars else AbsExec(AbsApply(vars, es[0]), es[1..])
  }

  lemma {:induction false} RunKeepsInv(s: State, vars: map<Var, int>, es: seq<Event>)
    requires Inv(s, vars) && CanRun(s, es)
    ensures Inv(Exec(s, es), AbsExec(vars, es))
    decreases |es|
  {
    if es != [] {
      StepKeepsInv(s, vars, es[0]);
      RunKeepsInv(Apply(s, es[0]), AbsApply(vars, es[0]), es[1..]);
    }
  }

  /** In every reached state: forwarding is idempotent from every alias, all
      aliases of a variable reach the same cell, which no other variable
      shares, and no variable has moved more than once. */
  lemma AliasesShareOneCell(s0: State, es: seq<Event>, a: Src, b: Src)
    requires Initial(s0) && CanRun(s0, es)
    requires Reaches(Exec(s0, es), a) && Reaches(Exec(s0, es), b)
    ensures var s := Exec(s0, es); var p := Pointer(s, a); var q := Pointer(s, b);
      && IsByref(s.mem, p) && IsByref(s.mem, s.mem.cells[p].forwarding) && IsByref(s.mem, q)
      && s.mem.cells[s.mem.cells[p].forwarding].forwarding == s.mem.cells[p].forwarding
      && (a.v == b.v <==> s.mem.cells[p].forwarding == s.mem.cells[q].forwarding)
      && a.v in s.moves && s.moves[a.v] <= 1 && !s.mem.bad
  {
    RunKeepsInv(s0, map[], es);
    var s, vars := Exec(s0, es), AbsExec(map[], es);
    ReachedSpot(s, vars, a);
    ReachedSpot(s, vars, b);
    assert Apart(s, a.v, b.v);
  }
}
