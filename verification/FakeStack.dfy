/** The fake stack as a frame allocator, and runs of calls, returns and
    no-return jumps over it. */
module FakeStack {
  import opened Wrappers
  import opened Pow2Math
  import opened FakeStackLayout

  /** `live` maps each allocated frame to the real_stack stored in it. */
  datatype Fake = Fake(log: nat, live: map<Slot, nat>, hint: seq<nat>, needsGc: bool)

  ghost predicate Valid(f: Fake) {
    && ValidLog(f.log) && |f.hint| == CLASSES
    && (forall c :: 0 <= c < CLASSES ==> f.hint[c] < WORD)
    && (forall s :: s in f.live ==> ValidSlot(f.log, s))
  }

  /** FakeStack::GC. */
  function Collect(f: Fake, realStack: nat): Fake {
    f.(live := map s | s in f.live && realStack <= f.live[s] :: f.live[s], needsGc := false)
  }

  /** The position the scan of class c looks at in iteration i. */
  function Probe(f: Fake, c: nat, i: nat): nat
    requires ValidLog(f.log) && |f.hint| == CLASSES && c < CLASSES
  {
    (f.hint[c] + i) % WORD % FrameCount(f.log, c)
  }

  /** First iteration, from i on, that finds a free frame. */
  function Scan(f: Fake, c: nat, i: nat): Option<nat>
    requires ValidLog(f.log) && |f.hint| == CLASSES && c < CLASSES && i <= FrameCount(f.log, c)
    decreases FrameCount(f.log, c) - i
  {
    if i == FrameCount(f.log, c) then None
    else if Slot(c, Probe(f, c, i)) !in f.live then Some(i)
    else Scan(f, c, i + 1)
  }

  /** FakeStack::Allocate: the frame, if any, and the state after. */
  function Allocate(f: Fake, c: nat, realStack: nat): (Option<Slot>, Fake)
    requires ValidLog(f.log) && |f.hint| == CLASSES && c < CLASSES
  {
    var g := if f.needsGc then Collect(f, realStack) else f;
    match Scan(g, c, 0)
    case None => (None, Advance(g, c, FrameCount(g.log, c)))
    case Some(i) =>
      var s := Slot(c, Probe(g, c, i));
      (Some(s), Advance(g, c, i + 1).(live := g.live[s := realStack]))
  }

  /** The hint of class c after n increments; it wraps at 2^64. */
  function Advance(f: Fake, c: nat, n: nat): Fake
    requires c < |f.hint|
  {
    f.(hint := f.hint[c := (f.hint[c] + n) % WORD])
  }

  lemma AdvanceStep(f: Fake, c: nat, n: nat)
    requires c < |f.hint|
    ensures Advance(Advance(f, c, n), c, 1) == Advance(f, c, n + 1)
    ensures f.hint[c] < WORD ==> Advance(f, c, 0) == f
  {
    assert f.hint[c := (f.hint[c] + n) % WORD][c := (f.hint[c] + n + 1) % WORD]
        == f.hint[c := (f.hint[c] + n + 1) % WORD];
    assert ((f.hint[c] + n) % WORD + 1) % WORD == (f.hint[c] + n + 1) % WORD;
    if f.hint[c] < WORD { assert f.hint[c := f.hint[c]] == f.hint; }
  }

  /** FakeStack::Deallocate through the flag address saved in the frame. */
  function Deallocate(f: Fake, s: Slot): Fake { f.(live := f.live - {s}) }

  // ----------------------------------------------------------- rotating scan

  /** The counter's wrap-around at 2^64 does not disturb the rotation. */
  lemma ProbeIs(f: Fake, c: nat, i: nat)
    requires ValidLog(f.log) && |f.hint| == CLASSES && c < CLASSES
    ensures Probe(f, c, i) == (f.hint[c] + i) % FrameCount(f.log, c)
  {
    var k := DividesWord(f.log - MIN_FRAME_LOG - c);
    ModMod(f.hint[c] + i, FrameCount(f.log, c), k);
  }

  lemma RotationHits(h: nat, n: nat, p: nat) returns (i: nat)
    requires p < n
    ensures i < n && (h + i) % n == p
  {
    var r, q := h % n, h / n;
    i := if r <= p then p - r else n - r + p;
    assert h == q * n + r && (q + 1) * n == q * n + n;
    if r <= p { DivMod(q, p, n); } else { DivMod(q + 1, p, n); }
  }

  lemma RotationOnce(h: nat, n: nat, i: nat, j: nat)
    requires i < j < n
    ensures (h + i) % n != (h + j) % n
  {
    var a, b := (h + i) / n, (h + j) / n;
    assert h + i == a * n + (h + i) % n && h + j == b * n + (h + j) % n;
    if (h + i) % n == (h + j) % n {
      assert (b - a) * n == j - i;
      if b - a >= 1 { MulStep(0, b - a, n); } else { MulStep(0, a - b + 1, n); }
      assert false;
    }
  }

  /** One full scan looks at every position of the class exactly once. */
  lemma ScanVisitsOnce(f: Fake, c: nat, p: nat)
    requires ValidLog(f.log) && |f.hint| == CLASSES && c < CLASSES && p < FrameCount(f.log, c)
    ensures exists i :: 0 <= i < FrameCount(f.log, c) && Probe(f, c, i) == p
    ensures forall i, j :: 0 <= i < j < FrameCount(f.log, c) ==> Probe(f, c, i) != Probe(f, c, j)
  {
    var n := FrameCount(f.log, c);
    var hit := RotationHits(f.hint[c], n, p);
    ProbeIs(f, c, hit);
    forall i, j | 0 <= i < j < n ensures Probe(f, c, i) != Probe(f, c, j) {
      ProbeIs(f, c, i);
      ProbeIs(f, c, j);
      RotationOnce(f.hint[c], n, i, j);
    }
  }

  lemma {:induction false} ScanFirst(f: Fake, c: nat, i: nat)
    requires ValidLog(f.log) && |f.hint| == CLASSES && c < CLASSES && i <= FrameCount(f.log, c)
    ensures match Scan(f, c, i)
      case None => forall j :: i <= j < FrameCount(f.log, c) ==> Slot(c, Probe(f, c, j)) in f.live
      case Some(k) => i <= k < FrameCount(f.log, c) && Slot(c, Probe(f, c, k)) !in f.live &&
                      forall j :: i <= j < k ==> Slot(c, Probe(f, c, j)) in f.live
    decreases FrameCount(f.log, c) - i
  {
    if i < FrameCount(f.log, c) && Slot(c, Probe(f, c, i)) in f.live { ScanFirst(f, c, i + 1); }
  }

  /** Allocate fails exactly when every frame of the class is taken after the
      collection that was due; otherwise it takes one free frame and leaves
      every other frame, and every other class's hint, as it was. */
  lemma AllocateIsExact(f: Fake, c: nat, realStack: nat)
    requires Valid(f) && c < CLASSES
    ensures var (r, f') := Allocate(f, c, realStack); var g := if f.needsGc then Collect(f, realStack) else f;
      && Valid(f') && f'.needsGc == false && f'.log == f.log
      && (r.None? <==> forall p :: 0 <= p < FrameCount(f.log, c) ==> Slot(c, p) in g.live)
      && (r.None? ==> f'.live == g.live)
      && (r.Some? ==> r.value.c == c && ValidSlot(f.log, r.value) && r.value !in g.live
                      && f'.live == g.live[r.value := realStack])
      && (forall d :: 0 <= d < CLASSES && d != c ==> f'.hint[d] == f.hint[d])
  {
    var g := if f.needsGc then Collect(f, realStack) else f;
    ScanFirst(g, c, 0);
    if Scan(g, c, 0).None? {
      forall p | 0 <= p < FrameCount(f.log, c) ensures Slot(c, p) in g.live {
        ScanVisitsOnce(g, c, p);
      }
    } else {
      var k := Scan(g, c, 0).value;
      assert Probe(g, c, k) < FrameCount(f.log, c);
    }
  }

  /** Position j of the rotation that starts at the hint of class c. */
  function Turn(f: Fake, c: nat, j: nat): nat
    requires ValidLog(f.log) && |f.hint| == CLASSES && c < CLASSES
  {
    (f.hint[c] + j) % FrameCount(f.log, c)
  }

  /** Counting from the hint, position k of class c is the first free one. */
  ghost predicate FirstFree(f: Fake, c: nat, k: nat)
    requires ValidLog(f.log) && |f.hint| == CLASSES && c < CLASSES
  {
    && k < FrameCount(f.log, c) && Slot(c, Turn(f, c, k)) !in f.live
    && forall j :: 0 <= j < k ==> Slot(c, Turn(f, c, j)) in f.live
  }

  /** The frame taken is the first free one at or after the hint, in rotation, and
      the hint moves past every position looked at. */
  lemma AllocateRotates(f: Fake, c: nat, realStack: nat)
    requires Valid(f) && c < CLASSES
    ensures var (r, f') := Allocate(f, c, realStack); var g := if f.needsGc then Collect(f, realStack) else f;
      && |f'.hint| == CLASSES
      && (r.None? ==> f'.hint[c] == (f.hint[c] + FrameCount(f.log, c)) % WORD)
      && (r.Some? ==> exists k: nat ::
            FirstFree(g, c, k) && r.value == Slot(c, Turn(g, c, k)) && f'.hint[c] == (f.hint[c] + k + 1) % WORD)
  {
    hide FrameCount;
    var g := if f.needsGc then Collect(f, realStack) else f;
    ScanFirst(g, c, 0);
    if Scan(g, c, 0).Some? {
      var k := Scan(g, c, 0).value;
      forall j | 0 <= j <= k ensures Probe(g, c, j) == Turn(g, c, j) { ProbeIs(g, c, j); }
      assert FirstFree(g, c, k);
    }
  }

  // ------------------------------------------------------------------- runs

  /** A function on the real stack: its stack address and its fake frame. */
  datatype Activation = Activation(realStack: nat, frame: Option<Slot>)

  /** Functions on the stack, oldest first. */
  datatype State = State(fake: Fake, stack: seq<Activation>)

  datatype Event =
    | Call(c: nat, realStack: nat)   // OnMalloc
    | Return                         // OnFree
    | NoReturn                       // HandleNoReturn, before a throw or longjmp
    | Unwind(n: nat)                 // n functions leave without OnFree

  predicate Enabled(s: State, e: Event) {
    match e
    case Call(c, realStack) =>
      c < CLASSES && (s.stack != [] ==> realStack < s.stack[|s.stack| - 1].realStack)
    case Return => s.stack != []
    case NoReturn => true
    case Unwind(n) => n <= |s.stack|
  }

  ghost function Apply(s: State, e: Event): State
    requires Valid(s.fake) && Enabled(s, e)
  {
    match e
    case Call(c, realStack) =>
      var (r, f) := Allocate(s.fake, c, realStack);
      State(f, s.stack + [Activation(realStack, r)])
    case Return =>
      var top := s.stack[|s.stack| - 1];
      State(if top.frame.Some? then Deallocate(s.fake, top.frame.value) else s.fake, s.stack[..|s.stack| - 1])
    case NoReturn => s.(fake := s.fake.(needsGc := true))
    case Unwind(n) => s.(stack := s.stack[..|s.stack| - n])
  }

  /** Frames of functions on the stack are allocated, hold that function's
      real_stack and are not shared; deeper functions have lower addresses. */
  ghost predicate Inv(s: State) {
    && Valid(s.fake)
    && (forall i, j :: 0 <= i < j < |s.stack| ==> s.stack[j].realStack < s.stack[i].realStack)
    && (forall i :: 0 <= i < |s.stack| && s.stack[i].frame.Some? ==>
          s.stack[i].frame.value in s.fake.live && s.fake.live[s.stack[i].frame.value] == s.stack[i].realStack)
  }

  ghost predicate CanRun(s: State, es: seq<Event>)
    decreases |es|
  {
    es == [] || (Valid(s.fake) && Enabled(s, es[0]) && CanRun(Apply(s, es[0]), es[1..]))
  }

  ghost function Exec(s: State, es: seq<Event>): State
    requires CanRun(s, es)
    decreases |es|
  {
    if es == [] then s else Exec(Apply(s, es[0]), es[1..])
  }

  lemma StepKeepsInv(s: State, e: Event)
    requires Inv(s) && Enabled(s, e)
    ensures Inv(Apply(s, e))
  {
    if e.Call? { AllocateIsExact(s.fake, e.c, e.realStack); }
  }

  lemma {:induction false} RunKeepsInv(s: State, es: seq<Event>)
    requires Inv(s) && CanRun(s, es)
    ensures Inv(Exec(s, es))
    decreases |es|
  {
    if es != [] {
      StepKeepsInv(s, es[0]);
      RunKeepsInv(Apply(s, es[0]), es[1..]);
    }
  }

  ghost predicate Initial(s: State) {
    Valid(s.fake) && s.fake.live == map[] && s.stack == []
  }

  /** After any run, every function on the stack still owns its frame: it is
      allocated, carries that function's real_stack, and belongs to no other
      function on the stack. */
  lemma FramesAreOwned(s0: State, es: seq<Event>, i: nat, j: nat)
    requires Initial(s0) && CanRun(s0, es)
    requires i < |Exec(s0, es).stack| && j < |Exec(s0, es).stack| && i != j && Exec(s0, es).stack[i].frame.Some?
    ensures var s := Exec(s0, es);
      && s.stack[i].frame.value in s.fake.live
      && s.fake.live[s.stack[i].frame.value] == s.stack[i].realStack
      && s.stack[i].frame != s.stack[j].frame
  {
    RunKeepsInv(s0, es);
  }

  /** The call after a no-return event collects exactly the frames below its
      own real_stack. No function on the stack loses its frame; frames leaked
      at or above that address stay allocated, so a later collection, from a
      function higher up, is what frees them. */
  lemma CollectIsExact(s: State, c: nat, realStack: nat, slot: Slot)
    requires Inv(s) && s.fake.needsGc && Enabled(s, Call(c, realStack)) && slot in s.fake.live
    ensures var s' := Apply(s, Call(c, realStack));
      && (slot in s'.fake.live && s'.fake.live[slot] == s.fake.live[slot]
            <== realStack <= s.fake.live[slot])
      && (s.fake.live[slot] < realStack && s'.stack[|s.stack|].frame != Some(slot) ==> slot !in s'.fake.live)
      && (forall i :: 0 <= i < |s.stack| && s.stack[i].frame == Some(slot) ==> slot in s'.fake.live)
  {
    AllocateIsExact(s.fake, c, realStack);
  }

  /** After a no-return event the next call collects, exactly so. */
  lemma NoReturnCollects(s: State, c: nat, realStack: nat, slot: Slot)
    requires Inv(s) && Enabled(s, Call(c, realStack)) && slot in s.fake.live
    ensures var s' := Apply(Apply(s, NoReturn), Call(c, realStack));
      && (realStack <= s.fake.live[slot] ==> slot in s'.fake.live)
      && (s.fake.live[slot] < realStack && s'.stack[|s.stack|].frame != Some(slot) ==> slot !in s'.fake.live)
  {
    StepKeepsInv(s, NoReturn);
    CollectIsExact(Apply(s, NoReturn), c, realStack, slot);
  }

  /** Without a pending no-return event a call collects nothing, and a return
      gives back exactly the returning function's frame. */
  lemma OnlyOwnFrameMoves(s: State, e: Event, slot: Slot)
    requires Inv(s) && Enabled(s, e) && !(e.Call? && s.fake.needsGc) && slot in s.fake.live
    ensures slot !in Apply(s, e).fake.live <==> e.Return? && s.stack[|s.stack| - 1].frame == Some(slot)
  {
    if e.Call? { AllocateIsExact(s.fake, e.c, e.realStack); }
  }
}
