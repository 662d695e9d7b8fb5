/** Fake frames together with their shadow, over runs of calls, returns and
    no-return jumps: OnMalloc clears a frame's shadow, OnFree marks it. */
module FakeStackRuns {
  import opened FakeStack
  import opened FakeStackLayout
  import opened FakeStackShadow
  import opened Shadow
  import opened Wrappers
  import Verdict

  /** What last happened to a frame, and the size the compiler passed. */
  datatype Touch = Taken(size: nat) | Returned(size: nat)

  datatype Run = Run(s: State, base: nat, shadow: seq<nat>, canPoison: bool, touch: map<Slot, Touch>)

  /** The shadow covers the fake stack. */
  predicate Mapped(r: Run) {
    ValidLog(r.s.fake.log) && r.base % GRANULE == 0 && r.base + RequiredSize(r.s.fake.log) <= |r.shadow| * GRANULE
  }

  /** A frame's size fills whole granules of its class. */
  ghost predicate CanStep(r: Run, e: Event, size: nat) {
    Enabled(r.s, e) && (e.Call? ==> size % GRANULE == 0 && size <= FrameBytes(e.c))
  }

  function SizeOf(r: Run, slot: Slot): nat { if slot in r.touch then r.touch[slot].size else 0 }

  /** OnMalloc and OnFree: the frame allocator's step, then SetShadow. */
  ghost function Step(r: Run, e: Event, size: nat): Run
    requires Valid(r.s.fake) && CanStep(r, e, size)
  {
    var s' := FakeStack.Apply(r.s, e);
    match e
    case Call(c, _) =>
      var frame := s'.stack[|r.s.stack|].frame;
      if frame.None? then r.(s := s')
      else r.(s := s', shadow := FrameShadow(r.shadow, r.canPoison, Place(r, frame.value), size, frame.value.c, 0),
              touch := r.touch[frame.value := Taken(size)])
    case Return =>
      var frame := r.s.stack[|r.s.stack| - 1].frame;
      if frame.None? then r.(s := s')
      else
        var n := SizeOf(r, frame.value);
        r.(s := s', shadow := FrameShadow(r.shadow, r.canPoison, Place(r, frame.value), n, frame.value.c, AFTER_RETURN),
           touch := r.touch[frame.value := Returned(n)])
    case NoReturn => r.(s := s')
    case Unwind(_) => r.(s := s')
  }

  function Place(r: Run, slot: Slot): nat
    requires ValidLog(r.s.fake.log)
  {
    FrameAddr(r.base, r.s.fake.log, slot)
  }

  /** What the shadow of byte p of a frame must be after a touch. */
  predicate Shows(r: Run, slot: Slot, p: nat)
    requires ValidLog(r.s.fake.log) && slot in r.touch && p / GRANULE < |r.shadow|
  {
    match r.touch[slot]
    case Taken(n) => slot.c <= 6 || p < Place(r, slot) + n ==> r.shadow[p / GRANULE] == 0
    case Returned(n) =>
      slot.c <= 6 || (r.canPoison && p < Place(r, slot) + n) ==> r.shadow[p / GRANULE] == AFTER_RETURN
  }

  predicate InFrame(r: Run, slot: Slot, p: nat)
    requires ValidLog(r.s.fake.log)
  {
    Place(r, slot) <= p < Place(r, slot) + FrameBytes(slot.c)
  }

  ghost predicate Marked(r: Run, slot: Slot)
    requires Mapped(r) && slot in r.touch
  {
    && ValidSlot(r.s.fake.log, slot) && r.touch[slot].size % GRANULE == 0 && r.touch[slot].size <= FrameBytes(slot.c)
    && (r.touch[slot].Returned? ==> slot !in r.s.fake.live)
    && (forall p: nat :: InFrame(r, slot, p) ==> p / GRANULE < |r.shadow| && Shows(r, slot, p))
  }

  ghost predicate RunInv(r: Run) {
    && Mapped(r) && FakeStack.Inv(r.s)
    && (forall slot :: slot in r.touch ==> Marked(r, slot))
    && (forall i :: 0 <= i < |r.s.stack| && r.s.stack[i].frame.Some? ==>
          r.s.stack[i].frame.value in r.touch && r.touch[r.s.stack[i].frame.value].Taken?)
  }

  // ------------------------------------------------------------ one frame set

  /** Setting one frame's shadow: that frame reads v where asked, every other frame as before. */
  lemma SetsOneFrame(r: Run, slot: Slot, n: nat, v: nat, t: Slot, p: nat)
    requires Mapped(r) && ValidSlot(r.s.fake.log, slot) && ValidSlot(r.s.fake.log, t) && InFrame(r, t, p)
    requires n % GRANULE == 0 && n <= FrameBytes(slot.c)
    ensures p / GRANULE < |r.shadow|
    ensures var sh := FrameShadow(r.shadow, r.canPoison, Place(r, slot), n, slot.c, v);
      && |sh| == |r.shadow|
      && (t != slot ==> sh[p / GRANULE] == r.shadow[p / GRANULE])
      && (t == slot && (slot.c <= 6 || (p < Place(r, slot) + n && (r.canPoison || v == 0))) ==> sh[p / GRANULE] == v)
  {
    hide Place, FrameBytes, ValidSlot, RequiredSize, FrameAddr;
    var log := r.s.fake.log;
    WholeFrame(slot.c);
    assert Place(r, slot) == FrameAddr(r.base, log, slot) && Place(r, t) == FrameAddr(r.base, log, t) by {
      PlaceIs(r, slot);
      PlaceIs(r, t);
    }
    ShadowStaysInFrame(r.base, log, slot, if slot.c <= 6 then FrameBytes(slot.c) else n, r.shadow, v, t, p);
  }

  lemma PlaceIs(r: Run, slot: Slot)
    requires ValidLog(r.s.fake.log)
    ensures Place(r, slot) == FrameAddr(r.base, r.s.fake.log, slot)
  {
  }

  /** A touch of one frame keeps every frame marked. */
  lemma TouchKeeps(r: Run, r': Run, slot: Slot, touch: Touch, t: Slot)
    requires RunInv(r) && ValidSlot(r.s.fake.log, slot) && touch.size % GRANULE == 0 && touch.size <= FrameBytes(slot.c)
    requires r'.s.fake.log == r.s.fake.log && r'.touch == r.touch[slot := touch] && t in r'.touch
    requires r' == r.(s := r'.s, touch := r'.touch, shadow :=
      FrameShadow(r.shadow, r.canPoison, Place(r, slot), touch.size, slot.c, if touch.Taken? then 0 else AFTER_RETURN))
    requires touch.Returned? ==> slot !in r'.s.fake.live
    requires t != slot && t !in r.s.fake.live ==> t !in r'.s.fake.live
    ensures Mapped(r') && Marked(r', t)
  {
    hide FrameShadow, FrameAddr, FrameBytes, RequiredSize, ValidSlot, FakeStack.Inv;
    if t != slot { assert Marked(r, t); }
    forall p: nat | InFrame(r', t, p)
      ensures p / GRANULE < |r'.shadow| && Shows(r', t, p)
    {
      SetsOneFrame(r, slot, touch.size, if touch.Taken? then 0 else AFTER_RETURN, t, p);
      if t != slot { assert Shows(r, t, p); }
    }
  }

  /** A step without shadow keeps every frame marked. */
  lemma QuietKeeps(r: Run, r': Run, t: Slot)
    requires RunInv(r) && r' == r.(s := r'.s) && r'.s.fake.log == r.s.fake.log && t in r.touch
    requires t !in r.s.fake.live ==> t !in r'.s.fake.live
    ensures Mapped(r') && Marked(r', t)
  {
    hide FrameAddr, FrameBytes, RequiredSize, ValidSlot, FakeStack.Inv;
    assert Marked(r, t);
    forall p: nat | InFrame(r', t, p) ensures p / GRANULE < |r'.shadow| && Shows(r', t, p) { assert InFrame(r, t, p); }
  }

  // --------------------------------------------------------------------- runs

  lemma StepKeeps(r: Run, e: Event, size: nat)
    requires RunInv(r) && CanStep(r, e, size)
    ensures RunInv(Step(r, e, size))
  {
    hide Marked, FrameShadow, FrameBytes, FrameAddr, RequiredSize, Mapped, Allocate;
    var r' := Step(r, e, size);
    FakeStack.StepKeepsInv(r.s, e);
    if e.Call? {
      CallKeeps(r, e, size);
    } else if e.Return? {
      ReturnKeeps(r, size);
    } else {
      forall t | t in r'.touch ensures Mapped(r') && Marked(r', t) { QuietKeeps(r, r', t); }
      StillMapped(r, r');
    }
  }

  lemma StillMapped(r: Run, r': Run)
    requires Mapped(r) && r'.base == r.base && |r'.shadow| == |r.shadow| && r'.s.fake.log == r.s.fake.log
    ensures Mapped(r')
  {
  }

  /** What a call does to the frames. */
  lemma CallIs(s: State, c: nat, realStack: nat)
    requires FakeStack.Inv(s) && Enabled(s, Call(c, realStack))
    ensures var s' := FakeStack.Apply(s, Call(c, realStack));
      && |s'.stack| == |s.stack| + 1 && s'.stack[..|s.stack|] == s.stack && s'.fake.log == s.fake.log
      && var frame := s'.stack[|s.stack|].frame;
         && (frame.Some? ==> frame.value.c == c && ValidSlot(s.fake.log, frame.value))
         && (forall t :: t !in s.fake.live && frame != Some(t) ==> t !in s'.fake.live)
  {
    AllocateIsExact(s.fake, c, realStack);
  }

  lemma CallKeeps(r: Run, e: Event, size: nat)
    requires RunInv(r) && CanStep(r, e, size) && e.Call? && FakeStack.Inv(FakeStack.Apply(r.s, e))
    ensures RunInv(Step(r, e, size))
  {
    hide Marked, FrameShadow, FrameBytes, FrameAddr, RequiredSize, Mapped, Allocate, ValidSlot, FakeStack.Apply;
    var r' := Step(r, e, size);
    CallIs(r.s, e.c, e.realStack);
    var frame := r'.s.stack[|r.s.stack|].frame;
    StillMapped(r, r');
    forall t | t in r'.touch ensures Marked(r', t) {
      if frame.Some? { TouchKeeps(r, r', frame.value, Taken(size), t); } else { QuietKeeps(r, r', t); }
    }
    forall i | 0 <= i < |r'.s.stack| && r'.s.stack[i].frame.Some?
      ensures r'.s.stack[i].frame.value in r'.touch && r'.touch[r'.s.stack[i].frame.value].Taken?
    {
      if i < |r.s.stack| { assert r'.s.stack[i] == r.s.stack[i]; }
    }
  }

  lemma ReturnKeeps(r: Run, size: nat)
    requires RunInv(r) && CanStep(r, Return, size) && FakeStack.Inv(FakeStack.Apply(r.s, Return))
    ensures RunInv(Step(r, Return, size))
  {
    hide FrameShadow, FrameBytes, FrameAddr, RequiredSize, Mapped;
    var r' := Step(r, Return, size);
    var frame := r.s.stack[|r.s.stack| - 1].frame;
    StillMapped(r, r');
    if frame.Some? { assert Marked(r, frame.value); }
    forall t | t in r'.touch ensures Marked(r', t) {
      if frame.Some? {
        TouchKeeps(r, r', frame.value, Returned(SizeOf(r, frame.value)), t);
      } else {
        QuietKeeps(r, r', t);
      }
    }
  }

  ghost predicate CanRun(r: Run, es: seq<(Event, nat)>)
    decreases |es|
  {
    Valid(r.s.fake) && (es == [] || (CanStep(r, es[0].0, es[0].1) && CanRun(Step(r, es[0].0, es[0].1), es[1..])))
  }

  ghost function Exec(r: Run, es: seq<(Event, nat)>): Run
    requires CanRun(r, es)
    decreases |es|
  {
    if es == [] then r else Exec(Step(r, es[0].0, es[0].1), es[1..])
  }

  lemma {:induction false} RunKeeps(r: Run, es: seq<(Event, nat)>)
    requires RunInv(r) && CanRun(r, es)
    ensures RunInv(Exec(r, es))
    decreases |es|
  {
    hide RunInv, Step, CanStep;
    if es != [] {
      StepKeeps(r, es[0].0, es[0].1);
      RunKeeps(Step(r, es[0].0, es[0].1), es[1..]);
    }
  }

  ghost predicate Starts(r: Run) { Mapped(r) && FakeStack.Initial(r.s) && r.touch == map[] }

  /** After any run, the memory that a function on the stack asked for is
      addressable, all of it, whatever happened to other frames. */
  lemma OwnFrameIsAddressable(r: Run, es: seq<(Event, nat)>, i: nat, p: nat)
    requires Starts(r) && CanRun(r, es) && i < |Exec(r, es).s.stack| && Exec(r, es).s.stack[i].frame.Some?
    requires var f := Exec(r, es); var slot := f.s.stack[i].frame.value;
      ValidLog(f.s.fake.log) && Place(f, slot) <= p < Place(f, slot) + SizeOf(f, slot)
    ensures p / GRANULE < |Exec(r, es).shadow| && Addressable(Exec(r, es).shadow, p)
  {
    hide CanRun, Exec, Place, FrameBytes;
    RunKeeps(r, es);
    var f := Exec(r, es);
    var slot := f.s.stack[i].frame.value;
    assert Marked(f, slot) && InFrame(f, slot, p);
  }

  /** After any run, a frame whose last use ended with a return, and that no call
      has taken since, is free; in the small classes every byte of it reads as
      stack-after-return, in the large ones every byte the function asked for,
      if poisoning is on. */
  lemma ReturnedFrameIsMarked(r: Run, es: seq<(Event, nat)>, slot: Slot, p: nat)
    requires Starts(r) && CanRun(r, es) && slot in Exec(r, es).touch && Exec(r, es).touch[slot].Returned?
    requires var f := Exec(r, es); ValidLog(f.s.fake.log) && InFrame(f, slot, p)
    requires var f := Exec(r, es); slot.c <= 6 || (f.canPoison && p < Place(f, slot) + f.touch[slot].size)
    ensures var f := Exec(r, es);
      slot !in f.s.fake.live && p / GRANULE < |f.shadow| && f.shadow[p / GRANULE] == AFTER_RETURN
  {
    hide CanRun, Exec, Place, FrameBytes;
    RunKeeps(r, es);
    assert Marked(Exec(r, es), slot);
  }

  /** So an access that starts in such a frame is reported as a use after return. */
  lemma ReturnedFrameVerdict(r: Run, es: seq<(Event, nat)>, slot: Slot, p: nat, accessSize: nat)
    requires Starts(r) && CanRun(r, es) && slot in Exec(r, es).touch && Exec(r, es).touch[slot].Returned?
    requires var f := Exec(r, es); ValidLog(f.s.fake.log) && InFrame(f, slot, p) && accessSize > 0
    requires var f := Exec(r, es); slot.c <= 6 || (f.canPoison && p < Place(f, slot) + f.touch[slot].size)
    ensures Verdict.VerdictOf(Exec(r, es).shadow, p, accessSize) == Verdict.StackUseAfterReturn
  {
    hide CanRun, Exec, Place, FrameBytes, Starts, InFrame;
    ReturnedFrameIsMarked(r, es, slot, p);
    Verdict.TagDecides(Exec(r, es).shadow, p, accessSize);
    Verdict.NamedOnce(AFTER_RETURN, Verdict.StackUseAfterReturn);
  }

  /** The record is right: a call that gets a frame takes it, a return gives the
      returning function's frame back, nothing else touches any frame. */
  lemma TouchesOwnFrame(r: Run, e: Event, size: nat, slot: Slot)
    requires RunInv(r) && CanStep(r, e, size)
    ensures var f := Step(r, e, size);
      (slot in f.touch && (slot !in r.touch || f.touch[slot] != r.touch[slot])) ==>
        || (e.Call? && f.s.stack[|r.s.stack|].frame == Some(slot) && f.touch[slot] == Taken(size))
        || (e.Return? && r.s.stack[|r.s.stack| - 1].frame == Some(slot) && f.touch[slot] == Returned(SizeOf(r, slot)))
  {
    hide FrameShadow, Mapped, Marked;
  }
}
