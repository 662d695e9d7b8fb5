/** FakeStack as it runs: flag bytes, per-frame words and hints in arrays. */
module FakeStackRuntime {
  import opened Wrappers
  import opened Pow2Math
  import opened FakeStackLayout
  import opened FakeStack

  class Runtime {
    const log: nat
    const flags: array<bool>        // the flag area
    const realStack: array<nat>     // FakeFrame::real_stack, by flag index
    const saved: array<nat>         // the flag index saved at the end of each frame
    const hint: array<nat>
    var needsGc: bool

    ghost predicate Valid()
      reads this, flags, realStack, saved, hint
      ensures Valid() ==> ValidLog(log)
    {
      && ValidLog(log) && hint.Length == CLASSES
      && realStack != saved && realStack != hint && saved != hint
      && (forall c :: 0 <= c < CLASSES ==> hint[c] < WORD)
      && (forall s :: ValidSlot(log, s) ==> At(s) < flags.Length && At(s) < realStack.Length && At(s) < saved.Length)
      && (forall s :: ValidSlot(log, s) && flags[At(s)] ==> saved[At(s)] == At(s))
    }

    function At(s: Slot): nat
      requires ValidLog(log) && s.c < CLASSES
    {
      FlagIndex(log, s)
    }

    /** The allocator state these arrays stand for. */
    ghost function State(): (f: Fake)
      requires Valid()
      reads this, flags, realStack, saved, hint
      ensures FakeStack.Valid(f) && f.log == log && f.needsGc == needsGc
    {
      Fake(log, map s | s in Slots(log) && flags[At(s)] :: realStack[At(s)], hint[..], needsGc)
    }

    /** FakeStack::Create: fresh mapped memory is zero. */
    constructor (stackSizeLog: nat)
      ensures Valid() && fresh(flags) && fresh(realStack) && fresh(saved) && fresh(hint)
      ensures log == ClampLog(stackSizeLog) && State().live == map[] && !needsGc
    {
      log := ClampLog(stackSizeLog);
      var n := FlagsSize(ClampLog(stackSizeLog));
      flags := new bool[n](_ => false);
      realStack := new nat[n](_ => 0);
      saved := new nat[n](_ => 0);
      hint := new nat[CLASSES](_ => 0);
      needsGc := false;
      new;
      forall s | ValidSlot(log, s) ensures At(s) < FlagsSize(log) { FlagsApart(log, s, s); }
    }

    method HandleNoReturn()
      requires Valid()
      modifies this
      ensures Valid() && State() == old(State()).(needsGc := true)
    {
      needsGc := true;
    }

    /** Slots the collection loop has passed when it stands at class c, position i. */
    predicate Passed(s: Slot, c: nat, i: nat) { s.c < c || (s.c == c && s.pos < i) }

    method GC(sp: nat)
      requires Valid()
      modifies this, flags
      ensures Valid() && State() == Collect(old(State()), sp)
    {
      var c := 0;
      while c < CLASSES
        invariant 0 <= c <= CLASSES && needsGc == old(needsGc)
        invariant forall s :: ValidSlot(log, s) ==>
          flags[At(s)] == (old(flags[At(s)]) && (Passed(s, c, 0) ==> sp <= realStack[At(s)]))
      {
        var i := 0;
        while i < FrameCount(log, c)
          invariant 0 <= i <= FrameCount(log, c) && needsGc == old(needsGc)
          invariant forall s :: ValidSlot(log, s) ==>
            flags[At(s)] == (old(flags[At(s)]) && (Passed(s, c, i) ==> sp <= realStack[At(s)]))
        {
          var here := Slot(c, i);
          forall s | ValidSlot(log, s) ensures At(s) == At(here) <==> s == here { FlagsApart(log, s, here); }
          assert ValidSlot(log, here);
          if flags[At(here)] && realStack[At(here)] < sp {
            flags[At(here)] := false;
          }
          i := i + 1;
        }
        c := c + 1;
      }
      needsGc := false;
    }

    /** Mark a frame allocated and record its owner and its own flag in it. */
    method Take(s: Slot, sp: nat)
      requires Valid() && ValidSlot(log, s)
      modifies flags, realStack, saved
      ensures Valid() && State() == old(State()).(live := old(State()).live[s := sp])
    {
      hide Slots, Pow2;
      forall t | ValidSlot(log, t) ensures At(t) == At(s) <==> t == s { FlagsApart(log, t, s); }
      flags[At(s)], realStack[At(s)], saved[At(s)] := true, sp, At(s);
    }

    /** `ModuloNumberOfFrames(hint_position++)`; the counter wraps at 2^64. */
    method NextPosition(c: nat) returns (pos: nat)
      requires Valid() && c < CLASSES
      modifies hint
      ensures Valid() && pos == old(hint[c]) % FrameCount(log, c)
      ensures State() == Advance(old(State()), c, 1)
    {
      pos := hint[c] % FrameCount(log, c);
      hint[c] := (hint[c] + 1) % WORD;
    }

    /** One iteration of the scan. */
    method TryNext(c: nat, sp: nat) returns (r: Option<Slot>)
      requires Valid() && c < CLASSES
      modifies flags, realStack, saved, hint
      ensures Valid()
      ensures var f := old(State());
        var here := Slot(c, f.hint[c] % FrameCount(log, c));
        if here in f.live then r == None && State() == Advance(f, c, 1)
        else r == Some(here) && State() == Advance(f, c, 1).(live := f.live[here := sp])
    {
      var pos := NextPosition(c);
      if flags[At(Slot(c, pos))] { return None; }
      Take(Slot(c, pos), sp);
      r := Some(Slot(c, pos));
    }

    method AllocateFrame(c: nat, sp: nat) returns (r: Option<Slot>)
      requires Valid() && c < CLASSES
      modifies this, flags, realStack, saved, hint
      ensures Valid() && (r, State()) == Allocate(old(State()), c, sp)
    {
      hide Pow2, Valid, State, Collect;
      if needsGc { GC(sp); }
      ghost var g := State();
      AdvanceStep(g, c, 0);
      var i := 0;
      while i < FrameCount(log, c)
        invariant 0 <= i <= FrameCount(log, c) && Valid() && Scan(g, c, i) == Scan(g, c, 0)
        invariant State() == Advance(g, c, i)
      {
        AdvanceStep(g, c, i);
        r := TryNext(c, sp);
        i := i + 1;
        if r.Some? { return; }
      }
      r := None;
    }

    method DeallocateFrame(s: Slot)
      requires Valid() && s in State().live
      modifies flags
      ensures Valid() && State() == Deallocate(old(State()), s)
    {
      hide Slots, Pow2, FlagIndex;
      forall t | ValidSlot(log, t) ensures At(s) == At(t) <==> s == t { FlagsApart(log, s, t); }
      flags[saved[At(s)]] := false;
    }
  }

  ghost function Slots(log: nat): (r: set<Slot>)
    requires ValidLog(log)
    ensures forall s :: s in r <==> ValidSlot(log, s)
  {
    set c: nat, p: nat | 0 <= c < CLASSES && 0 <= p < FrameCount(log, c) :: Slot(c, p)
  }
}
