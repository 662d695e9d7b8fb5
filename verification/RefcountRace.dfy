/** Racing copies and releases of reference-counted heap Blocks and byrefs.

    The compare-and-swap loops of latching_incr_int and latching_decr_int are
    split into a load and a swap, so any other thread may act in between.
    Every reference is a token held by one thread or captured by one heap
    object; a thread copies through and releases only tokens it holds, and may
    hand a token to another thread. When an object's last reference goes, its
    dispose helper (byref_destroy for a byref) releases the captured tokens one
    by one, each by the same interleaved steps, and those may take down further
    objects in turn. */
module RefcountRace {
  import opened BlockFlags

  type Tid = nat
  type Obj = nat
  type Ref = nat

  datatype Kind = Block | Byref

  /** History of one heap object: who, if anyone, is tearing it down. */
  datatype Stage = Live | Closing(t: Tid) | Closed(t: Tid) | Freed

  /** `word` is the flags word in memory; `born` is its value at creation. */
  datatype Cell = Cell(kind: Kind, word: nat, born: nat, disposals: nat, frees: nat, stage: Stage)

  datatype Owner = ByThread(t: Tid) | ByObject(x: Obj)

  datatype Holding = Holding(owner: Owner, o: Obj)

  datatype Pc =
    | Idle
    | IncLoad(o: Obj, r: Ref)
    | IncSwap(o: Obj, r: Ref, seen: nat)
    | ByrefCheck(o: Obj, r: Ref)
    | DecLoad(o: Obj, r: Ref)
    | DecSwap(o: Obj, r: Ref, seen: nat)
    | Dispose(o: Obj)
    | Free(o: Obj)

  /** `stacks` holds, per thread, the objects whose dispose helper waits for a
      release to return. `underflow` records the underflow message of
      _Block_byref_release or a decrement that found the count already at zero. */
  datatype State = State(cells: map<Obj, Cell>, refs: map<Ref, Holding>, pcs: map<Tid, Pc>,
                         stacks: map<Tid, seq<Obj>>, underflow: bool)

  datatype Event =
    | NewBlock(t: Tid, o: Obj, word: nat, r: Ref, caps: set<Ref>)             // _Block_copy of a stack Block
    | NewByref(t: Tid, o: Obj, word: nat, r: Ref, caps: set<Ref>, stack: Ref) // first copy of a stack byref
    | Give(r: Ref, to: Tid)
    | Copy(t: Tid, r: Ref)
    | Release(t: Tid, r: Ref)
    | Run(t: Tid, pick: Ref)                                                  // one step of t's operation

  function StackOf(s: State, t: Tid): seq<Obj> { if t in s.stacks then s.stacks[t] else [] }

  /** The references object x holds. */
  function Captured(s: State, x: Obj): set<Ref> {
    set r | r in s.refs && s.refs[r].owner == ByObject(x)
  }

  /** Thread t can make o and hand it references t holds; only an object with a
      dispose helper takes any. */
  predicate CanCapture(s: State, t: Tid, o: Obj, word: nat, caps: set<Ref>) {
    && t in s.pcs && s.pcs[t].Idle? && o !in s.cells
    && (forall c :: c in caps ==> c in s.refs && s.refs[c].owner == ByThread(t))
    && (caps != {} ==> HasCopyDispose(word))
  }

  /** `pick` names the reference a finished copy creates, or the captured
      reference a dispose helper releases next. */
  predicate Enabled(s: State, e: Event) {
    match e
    case NewBlock(t, o, word, r, caps) => CanCapture(s, t, o, word, caps) && r !in s.refs
    case NewByref(t, o, word, r, caps, stack) =>
      CanCapture(s, t, o, word, caps) && r !in s.refs && stack !in s.refs && r != stack
    case Give(r, to) =>
      && r in s.refs && to in s.pcs
      && s.refs[r].owner.ByThread? && s.refs[r].owner.t in s.pcs && s.pcs[s.refs[r].owner.t].Idle?
    case Copy(t, r) => t in s.pcs && s.pcs[t].Idle? && r in s.refs && s.refs[r].owner == ByThread(t)
    case Release(t, r) =>
      t in s.pcs && s.pcs[t].Idle? && r in s.refs && s.refs[r].owner == ByThread(t) && s.refs[r].o in s.cells
    case Run(t, pick) =>
      && t in s.pcs && !s.pcs[t].Idle? && s.pcs[t].o in s.cells
      && (if s.pcs[t].Dispose? && Captured(s, s.pcs[t].o) != {}
          then pick in Captured(s, s.pcs[t].o) && s.refs[pick].o in s.cells
          else pick !in s.refs)
  }

  function Apply(s: State, e: Event): State
    requires Enabled(s, e)
  {
    match e
    case NewBlock(t, o, word, r, caps) =>
      var w := HeapWord(word, 1);
      s.(cells := s.cells[o := Cell(Block, w, w, 0, 0, Live)],
         refs := Handed(s.refs, caps, o)[r := Holding(ByThread(t), o)])
    case NewByref(t, o, word, r, caps, stack) =>
      var w := HeapWord(word, 2);
      s.(cells := s.cells[o := Cell(Byref, w, w, 0, 0, Live)],
         refs := Handed(s.refs, caps, o)[r := Holding(ByThread(t), o)][stack := Holding(ByThread(t), o)])
    case Give(r, to) => s.(refs := s.refs[r := Holding(ByThread(to), s.refs[r].o)])
    case Copy(t, r) => s.(pcs := s.pcs[t := IncLoad(s.refs[r].o, r)])
    case Release(t, r) => s.(pcs := s.pcs[t := Releasing(s, r)])
    case Run(t, pick) => RunStep(s, t, pick)
  }

  /** The references `caps` become object o's. */
  function Handed(refs: map<Ref, Holding>, caps: set<Ref>, o: Obj): map<Ref, Holding> {
    map r | r in refs :: if r in caps then Holding(ByObject(o), refs[r].o) else refs[r]
  }

  /** Where the release of a reference starts. */
  function Releasing(s: State, r: Ref): Pc
    requires r in s.refs && s.refs[r].o in s.cells
  {
    var o := s.refs[r].o;
    if s.cells[o].kind.Byref? then ByrefCheck(o, r) else DecLoad(o, r)
  }

  /** An operation of t ends: the dispose helper that waits for it goes on, if any. */
  function Ended(s: State, t: Tid): State {
    var st := StackOf(s, t);
    if st == [] then s.(pcs := s.pcs[t := Idle])
    else s.(pcs := s.pcs[t := Dispose(st[|st| - 1])], stacks := s.stacks[t := st[..|st| - 1]])
  }

  function RunStep(s: State, t: Tid, pick: Ref): State
    requires Enabled(s, Run(t, pick))
  {
    var o := s.pcs[t].o;
    var c := s.cells[o];
    match s.pcs[t]
    case IncLoad(_, r) =>
      if Latched(c.word) then
        s.(pcs := s.pcs[t := Idle], refs := s.refs[pick := Holding(ByThread(t), o)])
      else
        s.(pcs := s.pcs[t := IncSwap(o, r, c.word)])
    case IncSwap(_, r, seen) =>
      if c.word == seen then
        s.(cells := s.cells[o := c.(word := Incr(seen))], pcs := s.pcs[t := Idle],
           refs := s.refs[pick := Holding(ByThread(t), o)])
      else
        s.(pcs := s.pcs[t := IncLoad(o, r)])
    case ByrefCheck(_, r) =>
      if Count(c.word) == 0 then Ended(s.(underflow := true), t)
      else s.(pcs := s.pcs[t := DecLoad(o, r)])
    case DecLoad(_, r) =>
      if Latched(c.word) then Ended(s.(refs := s.refs - {r}), t)
      else if Count(c.word) == 0 then s.(pcs := s.pcs[t := Dispose(o)], underflow := true)
      else s.(pcs := s.pcs[t := DecSwap(o, r, c.word)])
    case DecSwap(_, r, seen) =>
      if c.word != seen then s.(pcs := s.pcs[t := DecLoad(o, r)])
      else if Count(Decr(seen)) > 0 then
        Ended(s.(cells := s.cells[o := c.(word := Decr(seen))], refs := s.refs - {r}), t)
      else
        s.(cells := s.cells[o := c.(word := Decr(seen), stage := Closing(t))],
           pcs := s.pcs[t := Dispose(o)], refs := s.refs - {r})
    case Dispose(_) =>
      if HasCopyDispose(c.word) && Captured(s, o) != {} then
        s.(pcs := s.pcs[t := Releasing(s, pick)], stacks := s.stacks[t := StackOf(s, t) + [o]])
      else
        var d := if HasCopyDispose(c.word) then 1 else 0;
        if NeedsFree(c.word) then
          s.(cells := s.cells[o := c.(disposals := c.disposals + d, stage := Closed(t))],
             pcs := s.pcs[t := Free(o)])
        else
          Ended(s, t)
    case Free(_) =>
      Ended(s.(cells := s.cells[o := c.(frees := c.frees + 1, stage := Freed)]), t)
  }

  /** The outstanding references to `o`, in threads and in objects. */
  ghost function Owners(s: State, o: Obj): set<Ref> {
    set r | r in s.refs && s.refs[r].o == o
  }

  predicate Tearing(pc: Pc) { pc.Dispose? || pc.Free? }

  /** Whose reference t's running release is about. */
  function Holder(s: State, t: Tid): Owner {
    var st := StackOf(s, t);
    if st == [] then ByThread(t) else ByObject(st[|st| - 1])
  }

  /** What the running operation of thread t relies on. */
  ghost predicate PcOk(s: State, t: Tid)
    requires t in s.pcs
  {
    var pc := s.pcs[t];
    var st := StackOf(s, t);
    && (pc.Idle? || pc.IncLoad? || pc.IncSwap? ==> st == [])
    && (forall i :: 0 <= i < |st| ==> st[i] in s.cells && s.cells[st[i]].stage == Closing(t))
    && (forall i, j :: 0 <= i < j < |st| ==> st[i] != st[j])
    && (!pc.Idle? ==>
          && pc.o in s.cells
          && (pc.Dispose? ==> s.cells[pc.o].stage == Closing(t) && pc.o !in st)
          && (pc.Free? ==> s.cells[pc.o].stage == Closed(t))
          && (!Tearing(pc) ==> pc.r in s.refs && s.refs[pc.r] == Holding(Holder(s, t), pc.o))
          && (pc.IncSwap? ==> !Latched(pc.seen))
          && (pc.DecSwap? ==> 0 < Count(pc.seen) < REFCOUNT_MASK))
  }

  /** Count, teardown stage and history of one object agree. */
  ghost predicate CellOk(s: State, o: Obj)
    requires o in s.cells
  {
    var c := s.cells[o];
    var helper := if HasCopyDispose(c.born) then 1 else 0;
    && Upper(c.word) == Upper(c.born) && NeedsFree(c.word)
    && (!Latched(c.word) ==> Count(c.word) == |Owners(s, o)|)
    && (c.stage.Live? <==> Count(c.word) > 0)
    && c.frees == (if c.stage.Freed? then 1 else 0)
    && c.disposals == (if c.stage.Closed? || c.stage.Freed? then helper else 0)
    && (c.stage.Closing? ==> c.stage.t in s.pcs && (s.pcs[c.stage.t] == Dispose(o) || o in StackOf(s, c.stage.t)))
    && (c.stage.Closed? ==> c.stage.t in s.pcs && s.pcs[c.stage.t] == Free(o))
  }

  /** A captured reference belongs to an object that is alive or whose dispose helper runs. */
  ghost predicate RefOk(s: State, r: Ref)
    requires r in s.refs
  {
    && s.refs[r].o in s.cells
    && match s.refs[r].owner
       case ByThread(t) => t in s.pcs
       case ByObject(x) =>
         x in s.cells && (s.cells[x].stage.Live? || s.cells[x].stage.Closing?) && HasCopyDispose(s.cells[x].word)
  }

  ghost predicate Inv(s: State) {
    && !s.underflow
    && (forall t :: t in s.stacks ==> t in s.pcs)
    && (forall t :: t in s.pcs ==> PcOk(s, t))
    && (forall r :: r in s.refs ==> RefOk(s, r))
    && (forall o :: o in s.cells ==> CellOk(s, o))
  }

  lemma OwnedIsLive(s: State, r: Ref)
    requires Inv(s) && r in s.refs
    ensures s.refs[r].o in s.cells && s.cells[s.refs[r].o].stage.Live?
  {
    assert RefOk(s, r);
    assert CellOk(s, s.refs[r].o);
    assert r in Owners(s, s.refs[r].o);
  }

  lemma OwnersAdd(s: State, s': State, r: Ref, h: Holding)
    requires r !in s.refs && s'.refs == s.refs[r := h]
    ensures |Owners(s', h.o)| == |Owners(s, h.o)| + 1
    ensures forall o :: o != h.o ==> Owners(s', o) == Owners(s, o)
  {
    assert Owners(s', h.o) == Owners(s, h.o) + {r};
  }

  lemma OwnersDrop(s: State, s': State, r: Ref)
    requires r in s.refs && s'.refs == s.refs - {r}
    ensures |Owners(s', s.refs[r].o)| == |Owners(s, s.refs[r].o)| - 1
    ensures forall o :: o != s.refs[r].o ==> Owners(s', o) == Owners(s, o)
  {
    assert Owners(s', s.refs[r].o) == Owners(s, s.refs[r].o) - {r};
    forall o | o != s.refs[r].o ensures Owners(s', o) == Owners(s, o) { }
  }

  /** References that only thread t may move: its own, and those of objects it is taking down. */
  predicate MayMove(s: State, t: Tid, r: Ref)
    requires r in s.refs
  {
    match s.refs[r].owner
    case ByThread(u) => u == t
    case ByObject(x) => x in s.cells && s.cells[x].stage == Closing(t)
  }

  /** What a step of thread t on object o leaves alone. */
  ghost predicate Apart(s: State, s': State, t: Tid, o: Obj) {
    && s'.pcs.Keys == s.pcs.Keys && t in s.pcs
    && (forall u :: u != t ==> StackOf(s', u) == StackOf(s, u)) && (forall u :: u in s'.stacks ==> u in s'.pcs)
    && (forall u :: u in s.pcs && u != t ==> s'.pcs[u] == s.pcs[u])
    && s'.cells.Keys == s.cells.Keys + {o}
    && (forall p :: p in s.cells && p != o ==> s'.cells[p] == s.cells[p])
    && (forall p :: p != o ==> Owners(s', p) == Owners(s, p))
    && (forall r :: r in s.refs && !MayMove(s, t, r) ==> r in s'.refs && s'.refs[r] == s.refs[r])
    && (forall r :: r in s'.refs ==> RefOk(s', r))
    && (Tearing(s.pcs[t]) ==> s.pcs[t].o == o)
    && (forall p :: p in s.cells && p != o && s.cells[p].stage == Closing(t) ==>
          s'.pcs[t] == Dispose(p) || p in StackOf(s', t))
    && (o in s.cells && s.cells[o].stage != s'.cells[o].stage ==>
          s.cells[o].stage.Live? || s.cells[o].stage == Closing(t) || s.cells[o].stage == Closed(t))
  }

  /** A step of one thread on one object leaves the rest of the invariant alone. */
  lemma Framed(s: State, s': State, t: Tid, o: Obj)
    requires Inv(s) && !s'.underflow && Apart(s, s', t, o)
    requires PcOk(s', t) && CellOk(s', o)
    ensures Inv(s')
  {
    forall u | u in s'.pcs ensures PcOk(s', u) {
      if u != t { OtherThread(s, s', t, o, u); }
    }
    forall p | p in s'.cells ensures CellOk(s', p) {
      if p != o { assert CellOk(s, p); }
    }
  }

  lemma OtherThread(s: State, s': State, t: Tid, o: Obj, u: Tid)
    requires Inv(s) && Apart(s, s', t, o) && u in s.pcs && u != t
    ensures PcOk(s', u)
  {
    assert PcOk(s, u);
    var st := StackOf(s, u);
    forall i | 0 <= i < |st| ensures st[i] in s'.cells && s'.cells[st[i]].stage == Closing(u) {
      assert s.cells[st[i]].stage == Closing(u);
    }
    var pc := s.pcs[u];
    if !pc.Idle? && !Tearing(pc) {
      if st != [] { assert s.cells[st[|st| - 1]].stage == Closing(u); }
      assert !MayMove(s, t, pc.r);
    }
  }

  /** What the invariant says about thread t and the object it works on. */
  lemma ThreadFacts(s: State, t: Tid)
    requires Inv(s) && t in s.pcs
    ensures PcOk(s, t) && !s.underflow
    ensures !s.pcs[t].Idle? ==> s.pcs[t].o in s.cells && CellOk(s, s.pcs[t].o)
    ensures !s.pcs[t].Idle? && !Tearing(s.pcs[t]) ==> s.cells[s.pcs[t].o].stage.Live?
    ensures forall u :: u in s.stacks ==> u in s.pcs
  {
    assert PcOk(s, t);
    if !s.pcs[t].Idle? {
      assert CellOk(s, s.pcs[t].o);
      if !Tearing(s.pcs[t]) { OwnedIsLive(s, s.pcs[t].r); }
    }
  }

  /** An object that may still hold references does so afterwards. */
  predicate StillHolds(s: State, s': State, x: Obj) {
    x in s.cells && (s.cells[x].stage.Live? || s.cells[x].stage.Closing?) && Captured(s, x) != {} ==>
      && x in s'.cells && (s'.cells[x].stage.Live? || s'.cells[x].stage.Closing?)
      && (HasCopyDispose(s.cells[x].word) ==> HasCopyDispose(s'.cells[x].word))
  }

  lemma RefsStayOk(s: State, s': State)
    requires Inv(s) && s'.pcs.Keys == s.pcs.Keys && s.cells.Keys <= s'.cells.Keys
    requires forall r :: r in s'.refs && r in s.refs ==> s'.refs[r] == s.refs[r]
    requires forall r :: r in s'.refs && r !in s.refs ==> RefOk(s', r)
    requires forall x :: StillHolds(s, s', x)
    ensures forall r :: r in s'.refs ==> RefOk(s', r)
  {
    hide CellOk, PcOk;
    forall r | r in s'.refs ensures RefOk(s', r) {
      if r in s.refs {
        assert RefOk(s, r);
        if s.refs[r].owner.ByObject? {
          var x := s.refs[r].owner.x;
          assert r in Captured(s, x);
          assert StillHolds(s, s', x);
        }
      }
    }
  }

  lemma NewKeepsInv(s: State, e: Event)
    requires Inv(s) && Enabled(s, e) && (e.NewBlock? || e.NewByref?)
    ensures Inv(Apply(s, e))
  {
    hide Inv, CellOk, RefOk;
    var s' := Apply(s, e);
    ThreadFacts(s, e.t);
    NoOwnersYet(s, e.o);
    NewOwners(s, e);
    NewRefs(s, e);
    StackHolds(s, e.t);
    Framed(s, s', e.t, e.o);
  }

  lemma NewOwners(s: State, e: Event)
    requires Enabled(s, e) && (e.NewBlock? || e.NewByref?) && Owners(s, e.o) == {}
    ensures CellOk(Apply(s, e), e.o)
    ensures forall p :: p != e.o ==> Owners(Apply(s, e), p) == Owners(s, p)
  {
    var s' := Apply(s, e);
    var own := if e.NewBlock? then {e.r} else {e.r, e.stack};
    assert Owners(s', e.o) == own by {
      forall r | r in s'.refs && r !in own ensures s'.refs[r].o != e.o { assert r !in Owners(s, e.o); }
    }
    forall p | p != e.o ensures Owners(s', p) == Owners(s, p) { }
  }

  lemma NewRefs(s: State, e: Event)
    requires Inv(s) && Enabled(s, e) && (e.NewBlock? || e.NewByref?)
    ensures forall r :: r in Apply(s, e).refs ==> RefOk(Apply(s, e), r)
  {
    hide CellOk, PcOk;
    forall r | r in Apply(s, e).refs ensures RefOk(Apply(s, e), r) {
      if r in s.refs { assert RefOk(s, r); }
    }
  }

  lemma NoOwnersYet(s: State, o: Obj)
    requires Inv(s) && o !in s.cells
    ensures Owners(s, o) == {}
  {
    forall r | r in s.refs ensures s.refs[r].o != o { assert RefOk(s, r); }
  }

  lemma GiveKeepsInv(s: State, r: Ref, to: Tid)
    requires Inv(s) && Enabled(s, Give(r, to))
    ensures Inv(Apply(s, Give(r, to)))
  {
    hide Inv, RefOk;
    var s' := Apply(s, Give(r, to));
    var t, o := s.refs[r].owner.t, s.refs[r].o;
    ThreadFacts(s, t);
    OwnedIsLive(s, r);
    CellFacts(s, o);
    StackHolds(s, t);
    GivenRefs(s, r, to);
    assert forall p :: Owners(s', p) == Owners(s, p);
    Framed(s, s', t, o);
  }

  lemma CellFacts(s: State, o: Obj)
    requires Inv(s) && o in s.cells
    ensures CellOk(s, o)
  {
    hide CellOk, PcOk, RefOk;
  }

  lemma GivenRefs(s: State, r: Ref, to: Tid)
    requires Inv(s) && Enabled(s, Give(r, to))
    ensures forall q :: q in Apply(s, Give(r, to)).refs ==> RefOk(Apply(s, Give(r, to)), q)
  {
    hide CellOk, PcOk;
    forall q | q in s.refs ensures RefOk(Apply(s, Give(r, to)), q) { assert RefOk(s, q); }
  }

  /** A step that only moves t's program counter. */
  lemma PcMoveKeepsInv(s: State, t: Tid, pc: Pc)
    requires Inv(s) && t in s.pcs && !Tearing(s.pcs[t]) && !pc.Idle? && pc.o in s.cells
    requires PcOk(s.(pcs := s.pcs[t := pc]), t) && !Tearing(pc)
    ensures Inv(s.(pcs := s.pcs[t := pc]))
  {
    hide Inv, PcOk, RefOk;
    var s' := s.(pcs := s.pcs[t := pc]);
    assert forall p :: Owners(s', p) == Owners(s, p);
    RefsStayOk(s, s');
    StackHolds(s, t);
    PcMoveCell(s, t, pc);
    ThreadFacts(s, t);
    Framed(s, s', t, pc.o);
  }

  lemma PcMoveCell(s: State, t: Tid, pc: Pc)
    requires Inv(s) && t in s.pcs && !Tearing(s.pcs[t]) && !pc.Idle? && pc.o in s.cells
    ensures CellOk(s.(pcs := s.pcs[t := pc]), pc.o)
  {
    hide PcOk, RefOk;
    assert CellOk(s, pc.o);
    assert Owners(s.(pcs := s.pcs[t := pc]), pc.o) == Owners(s, pc.o);
  }

  /** Every Block t is taking down is its current one or waits on its stack. */
  lemma StackHolds(s: State, t: Tid)
    requires Inv(s) && t in s.pcs
    ensures forall p :: p in s.cells && s.cells[p].stage == Closing(t) ==> s.pcs[t] == Dispose(p) || p in StackOf(s, t)
  {
    forall p | p in s.cells && s.cells[p].stage == Closing(t)
      ensures s.pcs[t] == Dispose(p) || p in StackOf(s, t)
    {
      assert CellOk(s, p);
    }
  }

  lemma StartKeepsInv(s: State, e: Event)
    requires Inv(s) && Enabled(s, e) && (e.Copy? || e.Release?)
    ensures Inv(Apply(s, e))
  {
    hide Inv, CellOk;
    ThreadFacts(s, e.t);
    OwnedIsLive(s, e.r);
    PcMoveKeepsInv(s, e.t, Apply(s, e).pcs[e.t]);
  }

  lemma IncKeepsInv(s: State, t: Tid, pick: Ref)
    requires Inv(s) && Enabled(s, Run(t, pick)) && (s.pcs[t].IncLoad? || s.pcs[t].IncSwap?)
    ensures Inv(RunStep(s, t, pick))
  {
    hide Inv;
    var s' := RunStep(s, t, pick);
    var pc := s.pcs[t];
    ThreadFacts(s, t);
    if s'.pcs[t].Idle? {
      IncDone(s, t, pick);
    } else {
      PcMoveKeepsInv(s, t, s'.pcs[t]);
    }
  }

  lemma IncDone(s: State, t: Tid, pick: Ref)
    requires Inv(s) && Enabled(s, Run(t, pick)) && (s.pcs[t].IncLoad? || s.pcs[t].IncSwap?)
    requires RunStep(s, t, pick).pcs[t].Idle?
    ensures Inv(RunStep(s, t, pick))
  {
    hide Inv, RefOk;
    var s' := RunStep(s, t, pick);
    var o := s.pcs[t].o;
    ThreadFacts(s, t);
    OwnersAdd(s, s', pick, Holding(ByThread(t), o));
    StackHolds(s, t);
    NewRefOk(s', t, pick);
    RefsStayOk(s, s');
    Framed(s, s', t, o);
  }

  lemma NewRefOk(s: State, t: Tid, r: Ref)
    requires t in s.pcs && r in s.refs && s.refs[r].owner == ByThread(t) && s.refs[r].o in s.cells
    ensures RefOk(s, r)
  {
  }

  // ------------------------------------------------------ releases and teardown

  /** When an operation ends, the helper that waits for it goes on where it stopped. */
  lemma EndsWell(s: State, s1: State, t: Tid)
    requires t in s.pcs && PcOk(s, t) && s1.pcs == s.pcs && s1.stacks == s.stacks
    requires forall x :: x in StackOf(s, t) ==> x in s1.cells && s1.cells[x].stage == Closing(t)
    ensures PcOk(Ended(s1, t), t)
    ensures forall x :: x in StackOf(s, t) ==> Ended(s1, t).pcs[t] == Dispose(x) || x in StackOf(Ended(s1, t), t)
  {
    var st := StackOf(s, t);
    if st != [] {
      assert st[|st| - 1] !in st[..|st| - 1];
      forall x | x in st ensures x == st[|st| - 1] || x in st[..|st| - 1] { }
    }
  }

  /** A step of thread t that ends its operation on o. */
  lemma EndKeepsInv(s: State, s1: State, t: Tid, o: Obj)
    requires Inv(s) && t in s.pcs && !s.pcs[t].Idle? && s.pcs[t].o == o && !s.pcs[t].Dispose? && !s1.underflow
    requires s1.pcs == s.pcs && s1.stacks == s.stacks
    requires o in s.cells && o in s1.cells && s1.cells == s.cells[o := s1.cells[o]]
    requires forall p :: p != o ==> Owners(s1, p) == Owners(s, p)
    requires forall r :: r in s.refs && !MayMove(s, t, r) ==> r in s1.refs && s1.refs[r] == s.refs[r]
    requires forall r :: r in s1.refs ==> RefOk(s1, r)
    requires o !in StackOf(s, t) && CellOk(Ended(s1, t), o)
    requires s1.cells[o].stage != s.cells[o].stage ==> s.cells[o].stage == Closed(t)
    ensures Inv(Ended(s1, t))
  {
    hide Inv, CellOk, RefOk, MayMove;
    var s' := Ended(s1, t);
    ThreadFacts(s, t);
    StackHolds(s, t);
    StackStays(s, s1, t, o);
    EndsWell(s, s1, t);
    assert forall p :: Owners(s', p) == Owners(s1, p);
    EndedRefs(s1, t);
    hide PcOk;
    Framed(s, s', t, o);
  }

  lemma StackStays(s: State, s1: State, t: Tid, o: Obj)
    requires t in s.pcs && PcOk(s, t) && o !in StackOf(s, t) && o in s1.cells && s1.cells == s.cells[o := s1.cells[o]]
    ensures forall x :: x in StackOf(s, t) ==> x in s1.cells && s1.cells[x].stage == Closing(t)
  {
    forall x | x in StackOf(s, t) ensures x in s1.cells && s1.cells[x].stage == Closing(t) {
      var i :| 0 <= i < |StackOf(s, t)| && StackOf(s, t)[i] == x;
    }
  }

  lemma EndedRefs(s1: State, t: Tid)
    requires t in s1.pcs && forall r :: r in s1.refs ==> RefOk(s1, r)
    ensures forall r :: r in Ended(s1, t).refs ==> RefOk(Ended(s1, t), r)
  {
    forall r | r in s1.refs ensures RefOk(Ended(s1, t), r) { assert RefOk(s1, r); }
  }

  lemma DecLoadKeepsInv(s: State, t: Tid, pick: Ref)
    requires Inv(s) && Enabled(s, Run(t, pick)) && (s.pcs[t].ByrefCheck? || s.pcs[t].DecLoad?)
    ensures Inv(RunStep(s, t, pick))
  {
    hide Inv;
    var pc := s.pcs[t];
    ThreadFacts(s, t);
    if pc.DecLoad? && Latched(s.cells[pc.o].word) {
      DropKeepsInv(s, t, s.cells[pc.o].word);
      assert s.cells[pc.o := s.cells[pc.o].(word := s.cells[pc.o].word)] == s.cells;
    } else {
      PcMoveKeepsInv(s, t, RunStep(s, t, pick).pcs[t]);
    }
  }

  /** A release that leaves the object alive: its reference is gone, the operation ends. */
  lemma DropKeepsInv(s: State, t: Tid, word: nat)
    requires Inv(s) && t in s.pcs && !s.pcs[t].Idle? && !Tearing(s.pcs[t]) && s.pcs[t].o in s.cells
    requires var c := s.cells[s.pcs[t].o];
      Upper(word) == Upper(c.word) && Count(word) > 0
      && (if Latched(c.word) then word == c.word else Count(word) == Count(c.word) - 1)
    ensures var o := s.pcs[t].o;
      Inv(Ended(s.(cells := s.cells[o := s.cells[o].(word := word)], refs := s.refs - {s.pcs[t].r}), t))
  {
    hide Inv, RefOk;
    var o, r := s.pcs[t].o, s.pcs[t].r;
    ThreadFacts(s, t);
    var s1 := s.(cells := s.cells[o := s.cells[o].(word := word)], refs := s.refs - {r});
    OwnersDrop(s, s1, r);
    RefsStayOk(s, s1);
    HolderMayMove(s, t);
    NotOnStack(s, t, o);
    assert Owners(Ended(s1, t), o) == Owners(s1, o);
    hide PcOk;
    EndKeepsInv(s, s1, t, o);
  }

  lemma NotOnStack(s: State, t: Tid, o: Obj)
    requires t in s.pcs && PcOk(s, t) && o in s.cells && s.cells[o].stage != Closing(t)
    ensures o !in StackOf(s, t)
  {
  }

  /** The reference a thread is releasing is its to move. */
  lemma HolderMayMove(s: State, t: Tid)
    requires t in s.pcs && PcOk(s, t) && !s.pcs[t].Idle? && !Tearing(s.pcs[t])
    ensures s.pcs[t].r in s.refs && MayMove(s, t, s.pcs[t].r)
  {
    var st := StackOf(s, t);
    if st != [] { assert s.cells[st[|st| - 1]].stage == Closing(t); }
  }

  lemma DecSwapKeepsInv(s: State, t: Tid, pick: Ref)
    requires Inv(s) && Enabled(s, Run(t, pick)) && s.pcs[t].DecSwap?
    ensures Inv(RunStep(s, t, pick))
  {
    hide Inv;
    var pc := s.pcs[t];
    ThreadFacts(s, t);
    if s.cells[pc.o].word != pc.seen {
      PcMoveKeepsInv(s, t, RunStep(s, t, pick).pcs[t]);
    } else if Count(Decr(pc.seen)) > 0 {
      DropKeepsInv(s, t, Decr(pc.seen));
    } else {
      LastDropKeepsInv(s, t, pick);
    }
  }

  /** The last reference goes: t starts to take the object down. */
  lemma LastDropKeepsInv(s: State, t: Tid, pick: Ref)
    requires Inv(s) && Enabled(s, Run(t, pick)) && s.pcs[t].DecSwap?
    requires s.cells[s.pcs[t].o].word == s.pcs[t].seen && Count(Decr(s.pcs[t].seen)) == 0
    ensures Inv(RunStep(s, t, pick))
  {
    hide Inv, RefOk;
    var s' := RunStep(s, t, pick);
    var o, r := s.pcs[t].o, s.pcs[t].r;
    ThreadFacts(s, t);
    OwnersDrop(s, s', r);
    RefsStayOk(s, s');
    HolderMayMove(s, t);
    NotOnStack(s, t, o);
    StackHolds(s, t);
    Framed(s, s', t, o);
  }

  lemma PushKeepsInv(s: State, t: Tid, pick: Ref)
    requires Inv(s) && Enabled(s, Run(t, pick)) && s.pcs[t].Dispose?
    requires HasCopyDispose(s.cells[s.pcs[t].o].word) && Captured(s, s.pcs[t].o) != {}
    ensures Inv(RunStep(s, t, pick))
  {
    hide Inv, RefOk;
    var s' := RunStep(s, t, pick);
    var o := s.pcs[t].o;
    ThreadFacts(s, t);
    StackHolds(s, t);
    assert forall p :: Owners(s', p) == Owners(s, p);
    RefsStayOk(s, s');
    assert StackOf(s', t) == StackOf(s, t) + [o];
    Framed(s, s', t, o);
  }

  /** The dispose helper is through: nothing is captured any more. */
  lemma DisposedKeepsInv(s: State, t: Tid, pick: Ref)
    requires Inv(s) && Enabled(s, Run(t, pick)) && s.pcs[t].Dispose?
    requires !(HasCopyDispose(s.cells[s.pcs[t].o].word) && Captured(s, s.pcs[t].o) != {})
    ensures Inv(RunStep(s, t, pick))
  {
    hide Inv, RefOk;
    var s' := RunStep(s, t, pick);
    var o := s.pcs[t].o;
    ThreadFacts(s, t);
    StackHolds(s, t);
    NothingCaptured(s, o);
    assert forall p :: Owners(s', p) == Owners(s, p);
    RefsStayOk(s, s');
    Framed(s, s', t, o);
  }

  lemma NothingCaptured(s: State, o: Obj)
    requires Inv(s) && o in s.cells && !(HasCopyDispose(s.cells[o].word) && Captured(s, o) != {})
    ensures Captured(s, o) == {}
  {
    hide CellOk, PcOk;
    if !HasCopyDispose(s.cells[o].word) {
      forall r | r in s.refs ensures s.refs[r].owner != ByObject(o) { assert RefOk(s, r); }
    }
  }

  lemma FreeKeepsInv(s: State, t: Tid, pick: Ref)
    requires Inv(s) && Enabled(s, Run(t, pick)) && s.pcs[t].Free?
    ensures Inv(RunStep(s, t, pick))
  {
    hide Inv, RefOk;
    var o := s.pcs[t].o;
    ThreadFacts(s, t);
    var s1 := s.(cells := s.cells[o := s.cells[o].(frees := s.cells[o].frees + 1, stage := Freed)]);
    assert forall p :: Owners(s1, p) == Owners(s, p);
    RefsStayOk(s, s1);
    NotOnStack(s, t, o);
    assert Owners(Ended(s1, t), o) == Owners(s1, o);
    hide PcOk;
    EndKeepsInv(s, s1, t, o);
  }

  lemma StepKeepsInv(s: State, e: Event)
    requires Inv(s) && Enabled(s, e)
    ensures Inv(Apply(s, e))
  {
    hide Inv;
    match e
    case NewBlock(_, _, _, _, _) => NewKeepsInv(s, e);
    case NewByref(_, _, _, _, _, _) => NewKeepsInv(s, e);
    case Give(r, to) => GiveKeepsInv(s, r, to);
    case Copy(_, _) => StartKeepsInv(s, e);
    case Release(_, _) => StartKeepsInv(s, e);
    case Run(t, pick) =>
      var pc := s.pcs[t];
      if pc.IncLoad? || pc.IncSwap? {
        IncKeepsInv(s, t, pick);
      } else if pc.Dispose? && HasCopyDispose(s.cells[pc.o].word) && Captured(s, pc.o) != {} {
        PushKeepsInv(s, t, pick);
      } else if pc.Dispose? {
        DisposedKeepsInv(s, t, pick);
      } else if pc.Free? {
        FreeKeepsInv(s, t, pick);
      } else if pc.DecSwap? {
        DecSwapKeepsInv(s, t, pick);
      } else {
        DecLoadKeepsInv(s, t, pick);
      }
  }

  // --------------------------------------------------------------------- runs

  ghost predicate CanRun(s: State, es: seq<Event>)
    decreases |es|
  {
    es == [] || (Enabled(s, es[0]) && CanRun(Apply(s, es[0]), es[1..]))
  }

  ghost function Exec(s: State, es: seq<Event>): State
    requires CanRun(s, es)
    decreases |es|
  {
    if es == [] then s else Exec(Apply(s, es[0]), es[1..])
  }

  ghost predicate Initial(s: State) {
    && s.cells == map[] && s.refs == map[] && s.stacks == map[] && !s.underflow
    && (forall t :: t in s.pcs ==> s.pcs[t].Idle?)
  }

  lemma {:induction false} RunKeepsInv(s: State, es: seq<Event>)
    requires Inv(s) && CanRun(s, es)
    ensures Inv(Exec(s, es))
    decreases |es|
  {
    hide Inv, Enabled, Apply;
    if es != [] {
      StepKeepsInv(s, es[0]);
      RunKeepsInv(Apply(s, es[0]), es[1..]);
    }
  }

  /** In every state of every run: the count is the number of owners, threads and
      objects, until it latches; an object is gone, or one thread is taking it
      down, exactly when its last owner has released it; it is disposed and freed
      at most once, and only when it holds no reference any more; no reference
      and no running operation reaches freed memory. */
  lemma CountsAreOwners(s0: State, es: seq<Event>, o: Obj)
    requires Initial(s0) && CanRun(s0, es) && o in Exec(s0, es).cells
    ensures var s := Exec(s0, es); var c := s.cells[o];
      && !s.underflow
      && Upper(c.word) == Upper(c.born)
      && (!Latched(c.word) ==> Count(c.word) == |Owners(s, o)|)
      && (c.stage.Live? <==> Latched(c.word) || Owners(s, o) != {})
      && c.frees == (if c.stage.Freed? then 1 else 0)
      && c.disposals <= 1 && (c.frees == 1 ==> c.disposals == if HasCopyDispose(c.born) then 1 else 0)
      && (c.stage.Closed? || c.stage.Freed? ==> Captured(s, o) == {})
      && (c.stage.Closing? || c.stage.Closed? ==> c.stage.t in s.pcs && !s.pcs[c.stage.t].Idle?)
      && (forall t :: t in s.pcs && !s.pcs[t].Idle? && s.pcs[t].o == o ==> !c.stage.Freed?)
  {
    hide CanRun, Exec;
    var s := Exec(s0, es);
    InitialInv(s0);
    RunKeepsInv(s0, es);
    InvCounts(s, o);
  }

  lemma InitialInv(s: State)
    requires Initial(s)
    ensures Inv(s)
  {
  }

  lemma InvCounts(s: State, o: Obj)
    requires Inv(s) && o in s.cells
    ensures var c := s.cells[o];
      && !s.underflow && Upper(c.word) == Upper(c.born)
      && (!Latched(c.word) ==> Count(c.word) == |Owners(s, o)|)
      && (c.stage.Live? <==> Latched(c.word) || Owners(s, o) != {})
      && c.frees == (if c.stage.Freed? then 1 else 0)
      && c.disposals <= 1 && (c.frees == 1 ==> c.disposals == if HasCopyDispose(c.born) then 1 else 0)
      && (c.stage.Closed? || c.stage.Freed? ==> Captured(s, o) == {})
      && (c.stage.Closing? || c.stage.Closed? ==> c.stage.t in s.pcs && !s.pcs[c.stage.t].Idle?)
      && (forall t :: t in s.pcs && !s.pcs[t].Idle? && s.pcs[t].o == o ==> !c.stage.Freed?)
  {
    hide RefOk;
    assert CellOk(s, o);
    if s.cells[o].stage.Closed? || s.cells[o].stage.Freed? { GoneHoldsNothing(s, o); }
    if s.cells[o].stage.Closing? { assert PcOk(s, s.cells[o].stage.t); }
    forall t | t in s.pcs && !s.pcs[t].Idle? && s.pcs[t].o == o ensures !s.cells[o].stage.Freed? {
      ThreadFacts(s, t);
    }
  }

  lemma GoneHoldsNothing(s: State, o: Obj)
    requires Inv(s) && o in s.cells && (s.cells[o].stage.Closed? || s.cells[o].stage.Freed?)
    ensures Captured(s, o) == {}
  {
    hide CellOk, PcOk;
    forall r | r in s.refs ensures s.refs[r].owner != ByObject(o) { assert RefOk(s, r); }
  }

  /** From any reached state onwards the high half of a flags word never
      changes, a latched count stays latched and its object is never freed,
      and a freed object stays freed. */
  lemma {:induction false} LatchIsForever(s: State, es: seq<Event>, o: Obj)
    requires Inv(s) && CanRun(s, es) && o in s.cells
    ensures var s' := Exec(s, es);
      && o in s'.cells
      && Upper(s'.cells[o].word) == Upper(s.cells[o].word)
      && (Latched(s.cells[o].word) ==> s'.cells[o].word == s.cells[o].word && s'.cells[o].frees == 0)
      && (s.cells[o].stage.Freed? ==> s'.cells[o] == s.cells[o])
    decreases |es|
  {
    hide Inv, Enabled, Apply;
    InvCounts(s, o);
    if es != [] {
      StepKeepsInv(s, es[0]);
      StepOnCell(s, es[0], o);
      LatchIsForever(Apply(s, es[0]), es[1..], o);
    }
  }

  /** What one step may do to one object. */
  lemma StepOnCell(s: State, e: Event, o: Obj)
    requires Inv(s) && Enabled(s, e) && o in s.cells
    ensures var s' := Apply(s, e);
      && o in s'.cells
      && Upper(s'.cells[o].word) == Upper(s.cells[o].word)
      && (Latched(s.cells[o].word) ==> s'.cells[o].word == s.cells[o].word)
      && (s.cells[o].stage.Freed? ==> s'.cells[o] == s.cells[o])
      && (s.cells[o].stage.Closing? || s.cells[o].stage.Closed? ==>
            s'.cells[o].stage in {Closing(s.cells[o].stage.t), Closed(s.cells[o].stage.t), Freed})
  {
    hide Inv, CellOk, PcOk;
    InvCounts(s, o);
    if e.Run? { StepOnOwn(s, e.t, e.pick); }
  }

  lemma StepOnOwn(s: State, t: Tid, pick: Ref)
    requires Inv(s) && Enabled(s, Run(t, pick))
    ensures var o := s.pcs[t].o; var s' := RunStep(s, t, pick);
      && s'.cells.Keys == s.cells.Keys && (forall p :: p in s.cells && p != o ==> s'.cells[p] == s.cells[p])
      && Upper(s'.cells[o].word) == Upper(s.cells[o].word)
      && (Latched(s.cells[o].word) ==> s'.cells[o].word == s.cells[o].word)
      && !s.cells[o].stage.Freed?
      && (s.cells[o].stage.Closing? || s.cells[o].stage.Closed? ==>
            s'.cells[o].stage in {Closing(s.cells[o].stage.t), Closed(s.cells[o].stage.t), Freed})
  {
    hide Inv;
    ThreadFacts(s, t);
  }

  // ---------------------------------------------------------- teardown finishes

  /** Objects not yet freed. */
  ghost function Unfreed(s: State): set<Obj> { set o | o in s.cells && !s.cells[o].stage.Freed? }

  /** How far the current operation of t still has to go, if nobody else moves. */
  ghost function Phase(s: State, t: Tid): nat
    requires t in s.pcs
  {
    match s.pcs[t]
    case Idle => 0
    case Free(_) => 1
    case DecSwap(o, _, seen) => if o in s.cells && s.cells[o].word == seen then 1 else 4
    case DecLoad(_, _) => 2
    case ByrefCheck(_, _) => 3
    case Dispose(_) => 5
    case _ => 6
  }

  /** The thread is releasing or taking down. */
  predicate InRelease(pc: Pc) { pc.ByrefCheck? || pc.DecLoad? || pc.DecSwap? || Tearing(pc) }

  lemma NewRef(refs: set<Ref>) returns (r: Ref)
    ensures r !in refs && forall x :: x in refs ==> x < r
  {
    if refs == {} {
      r := 0;
    } else {
      var x :| x in refs;
      var y := NewRef(refs - {x});
      r := if x < y then y else x + 1;
      forall z | z in refs ensures z < r { if z != x { assert z in refs - {x}; } }
    }
  }

  lemma NextStep(s: State, t: Tid) returns (e: Event)
    requires Inv(s) && t in s.pcs && InRelease(s.pcs[t])
    ensures e.Run? && e.t == t && Enabled(s, e)
  {
    hide CellOk;
    ThreadFacts(s, t);
    if s.pcs[t].Dispose? && Captured(s, s.pcs[t].o) != {} {
      var r :| r in Captured(s, s.pcs[t].o);
      assert RefOk(s, r);
      e := Run(t, r);
    } else {
      var r := NewRef(s.refs.Keys);
      e := Run(t, r);
    }
  }

  /** References go, and none changes hands or comes. */
  ghost predicate OnlyDrops(s: State, s': State) {
    s'.refs.Keys <= s.refs.Keys && forall r :: r in s'.refs ==> s'.refs[r] == s.refs[r]
  }

  /** Thread t is still in its release, or done with it, and nearer to its end. */
  ghost predicate Nearer(s: State, s': State, t: Tid) {
    && t in s.pcs && t in s'.pcs && (s'.pcs[t].Idle? || InRelease(s'.pcs[t]))
    && OnlyDrops(s, s') && |s'.refs| <= |s.refs| && Unfreed(s') <= Unfreed(s)
    && (|s'.refs| < |s.refs| || Unfreed(s') < Unfreed(s) || Phase(s', t) < Phase(s, t))
  }

  lemma CountingAdvances(s: State, t: Tid, pick: Ref)
    requires Inv(s) && Enabled(s, Run(t, pick)) && InRelease(s.pcs[t]) && !Tearing(s.pcs[t])
    ensures Nearer(s, RunStep(s, t, pick), t)
  {
    hide Inv, RefOk;
    ThreadFacts(s, t);
    var s' := RunStep(s, t, pick);
    if s'.refs != s.refs {
      assert s'.refs.Keys == s.refs.Keys - {s.pcs[t].r};
      FewerRefs(s, s', s.pcs[t].r);
    }
  }

  lemma TearingAdvances(s: State, t: Tid, pick: Ref)
    requires Inv(s) && Enabled(s, Run(t, pick)) && Tearing(s.pcs[t])
    ensures Nearer(s, RunStep(s, t, pick), t)
  {
    hide Inv, RefOk;
    ThreadFacts(s, t);
    var s' := RunStep(s, t, pick);
    var o := s.pcs[t].o;
    if s.pcs[t].Free? { assert o in Unfreed(s) && o !in Unfreed(s'); }
  }

  /** Every step of a release brings it nearer to its end. */
  lemma StepAdvances(s: State, t: Tid, pick: Ref)
    requires Inv(s) && Enabled(s, Run(t, pick)) && InRelease(s.pcs[t])
    ensures Nearer(s, RunStep(s, t, pick), t)
  {
    hide Inv, RunStep, Nearer;
    if Tearing(s.pcs[t]) { TearingAdvances(s, t, pick); } else { CountingAdvances(s, t, pick); }
  }

  lemma FewerRefs(s: State, s': State, r: Ref)
    requires r in s.refs && s'.refs.Keys == s.refs.Keys - {r}
    ensures |s'.refs| < |s.refs|
  {
    assert |s'.refs| == |s'.refs.Keys| && |s.refs| == |s.refs.Keys|;
  }

  /** A release, left to run alone, ends: every object its thread had begun to
      take down is freed then and holds nothing. */
  lemma {:induction false} TeardownFrees(s: State, t: Tid) returns (es: seq<Event>)
    requires Inv(s) && t in s.pcs && (s.pcs[t].Idle? || InRelease(s.pcs[t]))
    ensures (forall i :: 0 <= i < |es| ==> es[i].Run? && es[i].t == t) && CanRun(s, es)
    ensures var f := Exec(s, es);
      && Inv(f) && t in f.pcs && f.pcs[t].Idle? && s.cells.Keys <= f.cells.Keys && OnlyDrops(s, f)
      && (forall o :: o in s.cells && (s.cells[o].stage == Closing(t) || s.cells[o].stage == Closed(t)) ==>
            f.cells[o].stage.Freed? && f.cells[o].frees == 1 && Captured(f, o) == {})
    decreases |s.refs|, Unfreed(s), if t in s.pcs then Phase(s, t) else 0
  {
    hide Inv, RunStep, Enabled, Captured, Phase, Unfreed;
    if s.pcs[t].Idle? {
      es := [];
      IdleTearsNothing(s, t);
    } else {
      var e := NextStep(s, t);
      StepAdvances(s, t, e.pick);
      StepKeepsInv(s, e);
      var s1 := Apply(s, e);
      var rest := TeardownFrees(s1, t);
      es := [e] + rest;
      assert es[0] == e && es[1..] == rest;
      assert CanRun(s, es) && Exec(s, es) == Exec(s1, rest);
      var f := Exec(s, es);
      forall o | o in s.cells
        ensures o in s1.cells
        ensures s.cells[o].stage == Closing(t) || s.cells[o].stage == Closed(t) ==>
          f.cells[o].stage.Freed? && f.cells[o].frees == 1 && Captured(f, o) == {}
      {
        StepOnCell(s, e, o);
        LatchIsForever(s1, rest, o);
        InvCounts(f, o);
      }
    }
  }

  lemma IdleTearsNothing(s: State, t: Tid)
    requires Inv(s) && t in s.pcs && s.pcs[t].Idle?
    ensures forall o :: o in s.cells ==> s.cells[o].stage != Closing(t) && s.cells[o].stage != Closed(t)
  {
    hide RefOk;
    assert PcOk(s, t);
    forall o | o in s.cells ensures s.cells[o].stage != Closing(t) && s.cells[o].stage != Closed(t) {
      assert CellOk(s, o);
    }
  }

  // ------------------------------------------------------- whole operations

  lemma {:induction false} RunsJoin(s: State, es: seq<Event>, fs: seq<Event>)
    requires CanRun(s, es) && CanRun(Exec(s, es), fs)
    ensures CanRun(s, es + fs) && Exec(s, es + fs) == Exec(Exec(s, es), fs)
    decreases |es|
  {
    hide Enabled, Apply;
    if es == [] {
      assert es + fs == fs;
    } else {
      assert (es + fs)[1..] == es[1..] + fs;
      RunsJoin(Apply(s, es[0]), es[1..], fs);
    }
  }

  lemma OneStep(s: State, e: Event)
    requires Enabled(s, e)
    ensures CanRun(s, [e]) && Exec(s, [e]) == Apply(s, e)
  {
    hide Enabled, Apply;
    assert [e][1..] == [];
    assert CanRun(Apply(s, e), []) && Exec(Apply(s, e), []) == Apply(s, e);
  }

  /** Events of the run are thread t's own steps. */
  predicate Solo(es: seq<Event>, t: Tid) { forall i :: 0 <= i < |es| ==> es[i].Run? && es[i].t == t }

  /** What a thread's release of r has done once its count is lowered: r is gone;
      unless the count latched it is one lower; the object is closed exactly when
      it was the last; nobody else's references, counts or steps changed. */
  ghost predicate Lowered(s: State, f: State, t: Tid, r: Ref)
    requires r in s.refs && s.refs[r].o in s.cells && t in s.pcs
  {
    var o := s.refs[r].o;
    && f.refs == s.refs - {r} && f.cells.Keys == s.cells.Keys
    && (forall p :: p in s.cells && p != o ==> f.cells[p] == s.cells[p])
    && Upper(f.cells[o].word) == Upper(s.cells[o].word)
    && Count(f.cells[o].word) == Count(s.cells[o].word) - (if Latched(s.cells[o].word) then 0 else 1)
    && f.pcs.Keys == s.pcs.Keys && (forall u :: u in s.pcs && u != t ==> f.pcs[u] == s.pcs[u])
    && (if Count(f.cells[o].word) > 0 then f.pcs[t].Idle? && f.cells[o].stage.Live?
        else f.pcs[t] == Dispose(o) && f.cells[o].stage == Closing(t))
  }

  /** From the release of a reference to the lowered count, with nobody else in between. */
  lemma LowersAlone(s: State, t: Tid, r: Ref) returns (es: seq<Event>)
    requires Inv(s) && Enabled(s, Release(t, r))
    ensures Solo(es, t) && CanRun(s, [Release(t, r)] + es)
    ensures Lowered(s, Exec(s, [Release(t, r)] + es), t, r)
  {
    hide Inv, CanRun, Exec, RunStep, Lowered;
    var s1 := Apply(s, Release(t, r));
    var x := NewRef(s.refs.Keys);
    StartKeepsInv(s, Release(t, r));
    ReleaseStarts(s, t, r, x);
    OneStep(s, Release(t, r));
    if s1.pcs[t].ByrefCheck? {
      var s2 := RunStep(s1, t, x);
      ByrefChecked(s, t, r, x);
      var rest := LowersFrom(s, s2, t, r, x);
      OneStep(s1, Run(t, x));
      RunsJoin(s1, [Run(t, x)], rest);
      es := [Run(t, x)] + rest;
    } else {
      es := LowersFrom(s, s1, t, r, x);
    }
    RunsJoin(s, [Release(t, r)], es);
  }

  /** Thread t is about to load the count behind r; nothing else has happened. */
  ghost predicate Loading(s: State, s1: State, t: Tid, r: Ref) {
    && Inv(s) && Inv(s1) && r in s.refs && s.refs[r] == Holding(ByThread(t), s.refs[r].o) && t in s.pcs
    && s1 == s.(pcs := s.pcs[t := DecLoad(s.refs[r].o, r)]) && StackOf(s, t) == []
  }

  lemma ReleaseStarts(s: State, t: Tid, r: Ref, x: Ref)
    requires Inv(s) && Enabled(s, Release(t, r)) && x !in s.refs
    requires Inv(Apply(s, Release(t, r)))
    ensures var s1 := Apply(s, Release(t, r)); var o := s.refs[r].o;
      && s1 == s.(pcs := s1.pcs) && t in s1.pcs && Enabled(s1, Run(t, x))
      && (s1.pcs[t] == ByrefCheck(o, r) || Loading(s, s1, t, r))
      && s1.pcs == s.pcs[t := s1.pcs[t]]
  {
    hide Inv, CellOk;
    ThreadFacts(s, t);
  }

  lemma ByrefChecked(s: State, t: Tid, r: Ref, x: Ref)
    requires Inv(s) && Enabled(s, Release(t, r)) && x !in s.refs && t in s.pcs
    requires var s1 := Apply(s, Release(t, r));
      Inv(s1) && t in s1.pcs && s1.pcs[t] == ByrefCheck(s.refs[r].o, r) && Enabled(s1, Run(t, x))
      && s1 == s.(pcs := s.pcs[t := s1.pcs[t]])
    ensures Loading(s, RunStep(Apply(s, Release(t, r)), t, x), t, r)
  {
    hide Inv;
    ThreadFacts(s, t);
    OwnedIsLive(s, r);
    CellFacts(s, s.refs[r].o);
    var s1 := Apply(s, Release(t, r));
    StepKeepsInv(s1, Run(t, x));
    assert s.pcs[t := s1.pcs[t]][t := DecLoad(s.refs[r].o, r)] == s.pcs[t := DecLoad(s.refs[r].o, r)];
  }

  lemma LowersFrom(s: State, s1: State, t: Tid, r: Ref, x: Ref) returns (es: seq<Event>)
    requires Loading(s, s1, t, r) && x !in s.refs && s.refs[r].o in s.cells
    ensures Solo(es, t) && CanRun(s1, es) && Lowered(s, Exec(s1, es), t, r)
  {
    hide Inv, CanRun, Exec;
    var o := s.refs[r].o;
    ThreadFacts(s1, t);
    OneStep(s1, Run(t, x));
    if Latched(s.cells[o].word) {
      es := [Run(t, x)];
      assert s.pcs[t := DecLoad(o, r)][t := Idle] == s.pcs[t := Idle];
    } else {
      var s2 := RunStep(s1, t, x);
      OneStep(s2, Run(t, x));
      RunsJoin(s1, [Run(t, x)], [Run(t, x)]);
      es := [Run(t, x)] + [Run(t, x)];
    }
  }

  /** _Block_release and _Block_byref_release, with nobody else in between: the
      release ends, its reference is gone and with it one of the object's owners;
      if that was the last one the object is disposed of and freed, once;
      otherwise its count is one lower, unless it latched, and nothing else
      changed. */
  lemma ReleaseRuns(s: State, t: Tid, r: Ref) returns (es: seq<Event>)
    requires Inv(s) && Enabled(s, Release(t, r))
    ensures Solo(es, t) && CanRun(s, [Release(t, r)] + es)
    ensures var f := Exec(s, [Release(t, r)] + es); var o := s.refs[r].o;
      && Inv(f) && t in f.pcs && f.pcs[t].Idle? && r !in f.refs && o in f.cells
      && Owners(f, o) == Owners(s, o) - {r}
      && (Owners(s, o) == {r} && !Latched(s.cells[o].word) ==>
            f.cells[o].stage.Freed? && f.cells[o].frees == 1 && Captured(f, o) == {}
            && f.cells[o].disposals == if HasCopyDispose(s.cells[o].word) then 1 else 0)
      && (Owners(s, o) != {r} || Latched(s.cells[o].word) ==>
            f.cells[o].stage.Live? && f.refs == s.refs - {r}
            && Count(f.cells[o].word) == Count(s.cells[o].word) - if Latched(s.cells[o].word) then 0 else 1)
  {
    hide Inv, CanRun, Exec, Captured;
    var o := s.refs[r].o;
    OwnedIsLive(s, r);
    InvCounts(s, o);
    var first := LowersAlone(s, t, r);
    var s1 := Exec(s, [Release(t, r)] + first);
    RunKeepsInv(s, [Release(t, r)] + first);
    CellFacts(s, o);
    LastOwner(s, o, r);
    var rest := TeardownFrees(s1, t);
    RunsJoin(s, [Release(t, r)] + first, rest);
    assert [Release(t, r)] + first + rest == [Release(t, r)] + (first + rest);
    es := first + rest;
    var f := Exec(s1, rest);
    InvCounts(f, o);
    LatchIsForever(s1, rest, o);
    if s1.pcs[t].Idle? { StayedIdle(s1, t, rest); }
  }

  /** With one unlatched reference left the count is one, and the other way round. */
  lemma LastOwner(s: State, o: Obj, r: Ref)
    requires Inv(s) && o in s.cells && CellOk(s, o) && r in Owners(s, o)
    ensures !Latched(s.cells[o].word) ==> (Count(s.cells[o].word) == 1 <==> Owners(s, o) == {r})
    ensures Count(s.cells[o].word) > 0
  {
    hide Inv;
    if !Latched(s.cells[o].word) && Count(s.cells[o].word) == 1 {
      assert |Owners(s, o) - {r}| == 0;
    }
  }

  /** An idle thread's own steps are none. */
  lemma StayedIdle(s: State, t: Tid, es: seq<Event>)
    requires Solo(es, t) && CanRun(s, es) && t in s.pcs && s.pcs[t].Idle?
    ensures es == [] && Exec(s, es) == s
  {
  }

  /** _Block_copy of a heap object with nobody else in between: t holds exactly one
      new reference, and the count is one higher unless it latched. */
  lemma CopyRuns(s: State, t: Tid, r: Ref, x: Ref) returns (es: seq<Event>)
    requires Inv(s) && Enabled(s, Copy(t, r)) && x !in s.refs
    ensures Solo(es, t) && CanRun(s, [Copy(t, r)] + es)
    ensures s.refs[r].o in s.cells && Raised(s, Exec(s, [Copy(t, r)] + es), t, s.refs[r].o, x)
  {
    hide Inv, CanRun, Exec, RunStep, Raised;
    var o := s.refs[r].o;
    OwnedIsLive(s, r);
    var s1 := s.(pcs := s.pcs[t := IncLoad(o, r)]);
    OneStep(s, Copy(t, r));
    OneStep(s1, Run(t, x));
    if Latched(s.cells[o].word) {
      es := [Run(t, x)];
      RaisesLatched(s, s1, t, r, x);
    } else {
      var s2 := s.(pcs := s.pcs[t := IncSwap(o, r, s.cells[o].word)]);
      Raises(s, s1, s2, t, r, x);
      OneStep(s2, Run(t, x));
      RunsJoin(s1, [Run(t, x)], [Run(t, x)]);
      es := [Run(t, x)] + [Run(t, x)];
    }
    RunsJoin(s, [Copy(t, r)], es);
  }

  /** Thread t holds one new reference x to o, the count is one higher unless it
      latched, and nothing else is different. */
  ghost predicate Raised(s: State, f: State, t: Tid, o: Obj, x: Ref)
    requires o in s.cells
  {
    && f == s.(cells := f.cells, refs := s.refs[x := Holding(ByThread(t), o)])
    && o in f.cells && f.cells == s.cells[o := s.cells[o].(word := f.cells[o].word)]
    && Upper(f.cells[o].word) == Upper(s.cells[o].word)
    && Count(f.cells[o].word) == Count(s.cells[o].word) + if Latched(s.cells[o].word) then 0 else 1
  }

  lemma RaisesLatched(s: State, s1: State, t: Tid, r: Ref, x: Ref)
    requires Enabled(s, Copy(t, r)) && x !in s.refs && s.refs[r].o in s.cells && Latched(s.cells[s.refs[r].o].word)
    requires s1 == s.(pcs := s.pcs[t := IncLoad(s.refs[r].o, r)]) && Enabled(s1, Run(t, x))
    ensures Raised(s, RunStep(s1, t, x), t, s.refs[r].o, x)
  {
    var o := s.refs[r].o;
    assert s.cells[o := s.cells[o]] == s.cells;
    assert s.pcs[t := IncLoad(o, r)][t := Idle] == s.pcs;
  }

  lemma Raises(s: State, s1: State, s2: State, t: Tid, r: Ref, x: Ref)
    requires Enabled(s, Copy(t, r)) && x !in s.refs && s.refs[r].o in s.cells && !Latched(s.cells[s.refs[r].o].word)
    requires s1 == s.(pcs := s.pcs[t := IncLoad(s.refs[r].o, r)]) && Enabled(s1, Run(t, x))
    requires s2 == s.(pcs := s.pcs[t := IncSwap(s.refs[r].o, r, s.cells[s.refs[r].o].word)])
    ensures RunStep(s1, t, x) == s2 && Enabled(s2, Run(t, x)) && Raised(s, RunStep(s2, t, x), t, s.refs[r].o, x)
  {
    var o, w := s.refs[r].o, s.cells[s.refs[r].o].word;
    assert s.pcs[t := IncLoad(o, r)][t := IncSwap(o, r, w)] == s.pcs[t := IncSwap(o, r, w)];
    assert s.pcs[t := IncSwap(o, r, w)][t := Idle] == s.pcs;
  }

  /** A new heap Block has one owner, a moved byref two, the copying thread's and
      the stack's; the new object holds exactly the captured references, which
      the thread gives up, and nothing else changes hands. */
  lemma NewHolds(s: State, e: Event)
    requires Inv(s) && Enabled(s, e) && (e.NewBlock? || e.NewByref?)
    ensures var f := Apply(s, e); var own := if e.NewBlock? then {e.r} else {e.r, e.stack};
      && e.o in f.cells && f.cells[e.o].stage.Live? && Count(f.cells[e.o].word) == |own|
      && f.cells == s.cells[e.o := f.cells[e.o]]
      && Owners(f, e.o) == own && Captured(f, e.o) == e.caps && f.refs.Keys == s.refs.Keys + own
      && (forall q :: q in own ==> f.refs[q].owner == ByThread(e.t))
      && (forall q :: q in s.refs ==> f.refs[q].o == s.refs[q].o)
      && (forall q :: q in s.refs && q !in e.caps ==> f.refs[q] == s.refs[q])
  {
    hide Inv, CellOk, PcOk;
    NoOwnersYet(s, e.o);
    NothingCapturedYet(s, e.o);
    NewRefsAre(s, e);
    NewOwners(s, e);
  }

  lemma NothingCapturedYet(s: State, o: Obj)
    requires Inv(s) && o !in s.cells
    ensures Captured(s, o) == {}
  {
    hide CellOk, PcOk;
    forall q | q in s.refs ensures s.refs[q].owner != ByObject(o) { assert RefOk(s, q); }
  }

  lemma NewRefsAre(s: State, e: Event)
    requires Enabled(s, e) && (e.NewBlock? || e.NewByref?) && Owners(s, e.o) == {} && Captured(s, e.o) == {}
    ensures var f := Apply(s, e); var own := if e.NewBlock? then {e.r} else {e.r, e.stack};
      && f.refs.Keys == s.refs.Keys + own && Owners(f, e.o) == own && Captured(f, e.o) == e.caps
      && (forall q :: q in own ==> f.refs[q] == Holding(ByThread(e.t), e.o))
      && (forall q :: q in s.refs ==> f.refs[q].o == s.refs[q].o && (q !in e.caps ==> f.refs[q] == s.refs[q]))
  {
    var f := Apply(s, e);
    var own := if e.NewBlock? then {e.r} else {e.r, e.stack};
    forall q | q in s.refs ensures s.refs[q].o != e.o && s.refs[q].owner != ByObject(e.o) {
      assert q !in Owners(s, e.o) && q !in Captured(s, e.o);
    }
    assert Captured(f, e.o) == e.caps;
    assert Owners(f, e.o) == own;
  }

  /** A reference handed over is the receiver's to release, and no longer the giver's. */
  lemma GivenAway(s: State, r: Ref, to: Tid)
    requires Inv(s) && Enabled(s, Give(r, to)) && s.refs[r].owner.t != to && s.pcs[to].Idle?
    ensures var f := Apply(s, Give(r, to));
      Enabled(f, Release(to, r)) && !Enabled(f, Release(s.refs[r].owner.t, r))
  {
    hide CellOk, PcOk;
    assert RefOk(s, r);
  }
}
