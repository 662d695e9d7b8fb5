/** Switching the sanitizer off and on again: what AsanDeactivate stashes and
    AsanActivate restores, through the narrowing conversions on the way. */
module Activation {
  import opened ChunkLayout
  import opened Shadow
  import opened HeapMemory
  import opened HeapMachine
  import opened HeapMetadata
  import opened HeapShadow
  import opened HeapAccounts
  import opened HeapSafety

  const U32: nat := 0x1_0000_0000
  const MB: nat := 0x10_0000
  const KB: nat := 0x400

  function ToU32(x: int): nat { x % U32 }

  function ToS32(x: nat): int { if x % U32 < U32 / 2 then x % U32 else x % U32 - U32 }

  function ToU16(x: int): nat { x % 0x1_0000 }

  function ToU8(p: bool): nat { if p then 1 else 0 }

  datatype Options = Options(quarantineMb: nat, cacheKb: nat, minRz: nat, maxRz: nat,
                             mayReturnNull: nat, mismatch: nat, releaseMs: int)

  datatype Flags = Flags(quarantineMb: int, cacheKb: int, redzone: int, maxRedzone: int,
                         mayReturnNull: bool, mismatch: bool, releaseMs: int, contextSize: int, poisonHeap: bool)

  /** The settings in force. */
  datatype Runtime = Runtime(maxSize: nat, maxCache: nat, minRz: nat, maxRz: nat, mismatch: nat,
                             mayReturnNull: bool, releaseMs: int, contextSize: nat, canPoison: bool)

  datatype Saved = Saved(options: Options, contextSize: int, poisonHeap: bool)

  /** Every field is within its machine type. */
  predicate Typed(rt: Runtime) {
    && rt.maxSize < U32 * U32 && rt.maxCache < U32 * U32 && rt.minRz < 0x1_0000 && rt.maxRz < 0x1_0000
    && rt.mismatch < 0x100 && -(U32 / 2) <= rt.releaseMs < U32 / 2 && rt.contextSize < U32
  }

  function GetOptions(rt: Runtime): Options {
    Options(ToU32(rt.maxSize / MB), ToU32(rt.maxCache / KB), rt.minRz, rt.maxRz,
            ToU8(rt.mayReturnNull), rt.mismatch, rt.releaseMs)
  }

  function SetOptions(rt: Runtime, o: Options): Runtime {
    rt.(maxSize := o.quarantineMb * MB, maxCache := o.cacheKb * KB, minRz := o.minRz, maxRz := o.maxRz,
        mismatch := o.mismatch, mayReturnNull := o.mayReturnNull != 0, releaseMs := o.releaseMs)
  }

  function CopyTo(o: Options, contextSize: int, poisonHeap: bool): Flags {
    Flags(ToS32(o.quarantineMb), ToS32(o.cacheKb), o.minRz, o.maxRz, o.mayReturnNull != 0, o.mismatch != 0,
          o.releaseMs, contextSize, poisonHeap)
  }

  function SetFrom(f: Flags): Options {
    Options(ToU32(f.quarantineMb), ToU32(f.cacheKb), ToU16(f.redzone), ToU16(f.maxRedzone),
            ToU8(f.mayReturnNull), ToU8(f.mismatch), f.releaseMs)
  }

  /** The CHECKs of CheckOptions and of the quarantine's Init. */
  predicate OptionChecks(o: Options) {
    LegalOptions(o.minRz, o.maxRz) && ((o.quarantineMb == 0 && o.cacheKb == 0) || o.cacheKb != 0)
  }

  function Stash(rt: Runtime): Saved { Saved(GetOptions(rt), ToS32(rt.contextSize), rt.canPoison) }

  function Disabled(o: Options): Options {
    o.(quarantineMb := 0, cacheKb := 0, minRz := 16, maxRz := 16, mismatch := 0, mayReturnNull := 1)
  }

  function Deactivated(rt: Runtime): Runtime {
    SetOptions(rt.(canPoison := false, contextSize := 1), Disabled(GetOptions(rt)))
  }

  function Overridden(saved: Saved, over: Flags -> Flags): Saved {
    var f := over(CopyTo(saved.options, saved.contextSize, saved.poisonHeap));
    Saved(SetFrom(f), f.contextSize, f.poisonHeap)
  }

  function Activated(rt: Runtime, saved: Saved): Runtime {
    SetOptions(rt.(canPoison := saved.poisonHeap, contextSize := ToU32(saved.contextSize)), saved.options)
  }

  /** Everything that is switched off: no quarantine, the smallest redzones, one
      frame of stack traces, no mismatch reports, null for requests that are too
      big, and no poisoning. */
  predicate IsOff(rt: Runtime) {
    && rt.maxSize == 0 && rt.maxCache == 0 && rt.minRz == 16 && rt.maxRz == 16 && rt.contextSize == 1
    && rt.mismatch == 0 && rt.mayReturnNull && !rt.canPoison
  }

  /** The runtime works by these flags, up to the width of the machine types. */
  predicate WorksBy(rt: Runtime, f: Flags) {
    && rt.maxSize == f.quarantineMb % 0x1_0000_0000 * 0x10_0000
    && rt.maxCache == f.cacheKb % 0x1_0000_0000 * 0x400
    && rt.minRz == f.redzone % 0x1_0000 && rt.maxRz == f.maxRedzone % 0x1_0000
    && rt.contextSize == f.contextSize % 0x1_0000_0000
    && rt.mismatch == (if f.mismatch then 1 else 0) && rt.mayReturnNull == f.mayReturnNull
    && rt.releaseMs == f.releaseMs && rt.canPoison == f.poisonHeap
  }

  /** Flags that come through the CHECKs: redzones that are powers of two from 16
      to 2048, and no quarantine without a thread-local part. */
  ghost predicate Accepted(f: Flags) {
    && 16 <= f.redzone % 0x1_0000 <= f.maxRedzone % 0x1_0000 <= 2048
    && PowerOfTwo(f.redzone % 0x1_0000) && PowerOfTwo(f.maxRedzone % 0x1_0000)
    && (f.cacheKb % 0x1_0000_0000 == 0 ==> f.quarantineMb % 0x1_0000_0000 == 0)
  }

  lemma AcceptedIsChecked(f: Flags)
    ensures Accepted(f) <==> OptionChecks(SetFrom(f))
  {
    hide PowerOfTwo;
    LegalIsChecked(f.redzone % 0x1_0000);
    LegalIsChecked(f.maxRedzone % 0x1_0000);
  }

  /** The flags an override starts from. */
  function FlagsOf(saved: Saved): Flags { CopyTo(saved.options, saved.contextSize, saved.poisonHeap) }

  /** The static state of asan_activation.cc together with the settings it changes. */
  class Activator {
    var runtime: Runtime
    var saved: Saved
    var deactivated: bool

    constructor (rt: Runtime)
      ensures runtime == rt && !deactivated
    {
      runtime, saved, deactivated := rt, Stash(rt), false;
    }

    method Deactivate() returns (ok: bool)
      requires !deactivated
      modifies this
      ensures ok && deactivated && saved == Stash(old(runtime)) && runtime == Deactivated(old(runtime))
      ensures IsOff(runtime) && runtime.releaseMs == old(runtime).releaseMs
    {
      saved := Stash(runtime);
      runtime := runtime.(canPoison := false);
      runtime := runtime.(contextSize := 1);
      var disabled := saved.options;
      disabled := disabled.(quarantineMb := 0);
      disabled := disabled.(cacheKb := 0);
      disabled := disabled.(minRz := Max(16, MIN_ALIGN));
      disabled := disabled.(maxRz := disabled.minRz);
      disabled := disabled.(mismatch := 0);
      disabled := disabled.(mayReturnNull := 1);
      ok := OptionChecks(disabled);
      runtime := SetOptions(runtime, disabled);
      deactivated := true;
    }

    /** `over` is what the environment's activation options do to the flags. */
    method Activate(over: Flags -> Flags) returns (ok: bool)
      modifies this
      ensures !old(deactivated) ==> ok && runtime == old(runtime) && saved == old(saved) && !deactivated
      ensures old(deactivated) ==> saved == Overridden(old(saved), over) && ok == OptionChecks(saved.options)
      ensures old(deactivated) && ok ==> !deactivated && runtime == Activated(old(runtime), saved)
      ensures old(deactivated) ==> (ok <==> Accepted(over(FlagsOf(old(saved)))))
      ensures old(deactivated) && ok ==> WorksBy(runtime, over(FlagsOf(old(saved))))
    {
      AcceptedIsChecked(over(FlagsOf(saved)));
      if !deactivated { return true; }
      saved := Overridden(saved, over);
      runtime := runtime.(canPoison := saved.poisonHeap);
      runtime := runtime.(contextSize := ToU32(saved.contextSize));
      ok := OptionChecks(saved.options);
      if ok {
        runtime := SetOptions(runtime, saved.options);
        deactivated := false;
      }
    }
  }

  // --------------------------------------------------------------- round trip

  /** Settings that whole options can produce. */
  predicate FromOptions(rt: Runtime) {
    rt.maxSize % MB == 0 && rt.maxSize / MB < U32 && rt.maxCache % KB == 0 && rt.maxCache / KB < U32 && rt.mismatch <= 1
  }

  lemma U32RoundTrip(x: nat)
    requires x < U32
    ensures ToU32(ToS32(x)) == x
  {
  }

  /** An override starts from the flags by which the runtime worked before it was
      switched off, if options had produced its settings. */
  lemma OverridesWhatWas(rt: Runtime)
    requires Typed(rt) && FromOptions(rt)
    ensures WorksBy(rt, FlagsOf(Stash(rt)))
  {
    var o := GetOptions(rt);
    U32RoundTrip(o.quarantineMb);
    U32RoundTrip(o.cacheKb);
    U32RoundTrip(rt.contextSize);
  }

  /** Off and on again with no override: every setting is back exactly when
      options produced it. */
  lemma RestoresExactly(rt: Runtime, same: Flags -> Flags)
    requires Typed(rt) && forall f: Flags :: same(f) == f
    ensures Activated(Deactivated(rt), Overridden(Stash(rt), same)) == rt <==> FromOptions(rt)
  {
    var o := GetOptions(rt);
    U32RoundTrip(o.quarantineMb);
    U32RoundTrip(o.cacheKb);
    U32RoundTrip(rt.contextSize);
    var r := Activated(Deactivated(rt), Overridden(Stash(rt), same));
    assert Overridden(Stash(rt), same).options == o.(mismatch := ToU8(o.mismatch != 0));
    Scaled(rt.maxSize, MB);
    Scaled(rt.maxCache, KB);
  }

  lemma Scaled(x: nat, unit: nat)
    requires unit == MB || unit == KB
    ensures ToU32(x / unit) * unit == x <==> x % unit == 0 && x / unit < U32
  {
  }

  /** Reading the options back after setting them gives the same options, so
      settings that were ever set from options are always restored. */
  lemma OptionsRoundTrip(rt: Runtime, o: Options)
    requires o.quarantineMb < U32 && o.cacheKb < U32 && o.mayReturnNull <= 1 && o.mismatch <= 1
    ensures GetOptions(SetOptions(rt, o)) == o
    ensures FromOptions(SetOptions(rt, o))
  {
  }

  /** The CHECKs on activation hold if they held when the options were set. */
  lemma ActivationChecks(rt: Runtime, o: Options, same: Flags -> Flags)
    requires o.quarantineMb < U32 && o.cacheKb < U32 && o.mayReturnNull <= 1 && o.mismatch <= 1 && OptionChecks(o)
    requires rt == SetOptions(rt, o) && Typed(rt) && forall f: Flags :: same(f) == f
    ensures OptionChecks(Overridden(Stash(rt), same).options)
  {
    OptionsRoundTrip(rt, o);
    U32RoundTrip(o.quarantineMb);
    U32RoundTrip(o.cacheKb);
  }

  // ------------------------------------------------------------ with the heap

  /** While the smallest redzone is in force and no alignment above 16 is asked
      for, a chunk's header is at the start of its block, where the sweep's size
      query accepts it. */
  lemma DeactivatedChunkSweeps(s: State, e: Event)
    requires Inv(s) && e.Malloc? && MallocEnabled(s, e) && s.maxRz == HEADER && EffectiveAlign(e.alignment) <= 16
    ensures NewAddr(s, e) == e.b
  {
    hide MakePlan, RZLog2Size, Inv, GoodPlan, PowerOfTwo, NeededSize;
    var p := PlanFor(s, e);
    BlocksGood(s);
    assert BlockOk(e.b, s.mem.blocks[e.b], |s.mem.shadow|);
    PlanArithmetic(e.request, e.alignment, s.minRz, s.maxRz);
    SmallAlign(p);
    Unmoved(e.b, HEADER, p.align);
  }

  /** What other threads and the sweep do while the sanitizer goes off, is off,
      comes back on and sweeps. */
  datatype Cycle = Cycle(going: seq<Event>, off: seq<Event>, coming: seq<Event>, sweep: seq<Event>)

  /** Heap operations and visits only: nobody else touches the switches. */
  predicate Undisturbed(es: seq<Event>) { forall i :: 0 <= i < |es| ==> LeavesSwitches(es[i]) }

  predicate Calm(c: Cycle) {
    Undisturbed(c.going) && Undisturbed(c.off) && Undisturbed(c.coming) && Undisturbed(c.sweep)
  }

  lemma {:induction false} RunLeavesSwitches(s: State, es: seq<Event>)
    requires CanRun(s, es) && Undisturbed(es)
    ensures var f := Exec(s, es); f.minRz == s.minRz && f.maxRz == s.maxRz && f.mem.canPoison == s.mem.canPoison
    decreases |es|
  {
    hide Enabled, Apply;
    if es != [] {
      EventLeavesSwitches(s, es[0]);
      RunLeavesSwitches(Apply(s, es[0]), es[1..]);
    }
  }

  /** AsanDeactivate: poisoning goes off first, the redzones after; then it stays off for a while. */
  function GoesOff(off: Runtime, c: Cycle): seq<Event> {
    [Event.Deactivate] + c.going + [SetRedzones(off.minRz, off.maxRz)] + c.off
  }

  /** AsanActivate up to the redzones. */
  function ComesOn(on: Runtime, c: Cycle): seq<Event> {
    (if on.canPoison then [Event.Activate] else []) + c.coming + [SetRedzones(on.minRz, on.maxRz)] + c.sweep
  }

  /** The heap runs under these settings. */
  predicate Under(s: State, rt: Runtime) {
    s.minRz == rt.minRz && s.maxRz == rt.maxRz && s.mem.canPoison == rt.canPoison
  }

  lemma {:induction false} RunSplits(s: State, es: seq<Event>, fs: seq<Event>)
    requires CanRun(s, es + fs)
    ensures CanRun(s, es) && CanRun(Exec(s, es), fs) && Exec(s, es + fs) == Exec(Exec(s, es), fs)
    decreases |es|
  {
    hide Enabled, Apply;
    if es == [] {
      assert es + fs == fs;
    } else {
      assert (es + fs)[1..] == es[1..] + fs;
      RunSplits(Apply(s, es[0]), es[1..], fs);
    }
  }

  lemma One(s: State, e: Event)
    requires CanRun(s, [e])
    ensures Enabled(s, e) && Exec(s, [e]) == Apply(s, e)
  {
    hide Enabled, Apply;
    assert [e][1..] == [];
  }

  /** Some events, the redzones of rt, and some more: the heap is under rt if its
      switch was rt's. */
  lemma SetsRedzones(s: State, es: seq<Event>, rt: Runtime, fs: seq<Event>)
    requires CanRun(s, es + [SetRedzones(rt.minRz, rt.maxRz)] + fs) && Undisturbed(es) && Undisturbed(fs)
    requires s.mem.canPoison == rt.canPoison
    ensures Under(Exec(s, es + [SetRedzones(rt.minRz, rt.maxRz)] + fs), rt)
  {
    hide CanRun, Exec, Undisturbed;
    var set_ := SetRedzones(rt.minRz, rt.maxRz);
    RunSplits(s, es + [set_], fs);
    RunSplits(s, es, [set_]);
    RunLeavesSwitches(s, es);
    OneSet(Exec(s, es), rt.minRz, rt.maxRz);
    RunLeavesSwitches(Exec(s, es + [set_]), fs);
  }

  lemma OneSet(s: State, lo: nat, hi: nat)
    requires CanRun(s, [SetRedzones(lo, hi)])
    ensures Exec(s, [SetRedzones(lo, hi)]) == s.(minRz := lo, maxRz := hi)
  {
    hide CanRun, Exec;
    One(s, SetRedzones(lo, hi));
  }

  /** While off, the heap runs under the disabled settings. */
  lemma OffSettings(s: State, off: Runtime, c: Cycle)
    requires CanRun(s, GoesOff(off, c)) && Calm(c) && !off.canPoison
    ensures Under(Exec(s, GoesOff(off, c)), off)
  {
    hide CanRun, Exec, Undisturbed, Under;
    var rest := c.going + [SetRedzones(off.minRz, off.maxRz)] + c.off;
    assert GoesOff(off, c) == [Event.Deactivate] + rest;
    RunSplits(s, [Event.Deactivate], rest);
    One(s, Event.Deactivate);
    SetsRedzones(Apply(s, Event.Deactivate), c.going, off, c.off);
  }

  /** With poisoning off there is no sweep. */
  lemma {:induction false} NoVisits(s: State, es: seq<Event>)
    requires CanRun(s, es) && Undisturbed(es) && !s.mem.canPoison
    ensures forall i :: 0 <= i < |es| ==> !es[i].Visit?
    decreases |es|
  {
    hide Apply;
    if es != [] {
      EventLeavesSwitches(s, es[0]);
      NoVisits(Apply(s, es[0]), es[1..]);
      forall i | 0 <= i < |es| ensures !es[i].Visit? {
        if i > 0 { assert es[i] == es[1..][i - 1]; }
      }
    }
  }

  lemma StillRuns(s: State, es: seq<Event>)
    requires CanRun(s, es) && es != []
    ensures !s.failed
  {
  }

  /** Coming on from a state with poisoning off installs the restored settings,
      unless the process stops in the sweep, which happens exactly when a visit
      meets a secondary block off its start, and never if poisoning stays off. */
  lemma OnSettings(s: State, on: Runtime, c: Cycle)
    requires Inv(s) && MetaInv(s) && !s.mem.canPoison && CanRun(s, ComesOn(on, c)) && Calm(c)
    ensures var f := Exec(s, ComesOn(on, c));
      && Under(f, on) && (f.failed <==> SweepsOffStart(s, ComesOn(on, c))) && (f.failed ==> on.canPoison)
  {
    hide CanRun, Exec, Inv, MetaInv, SweepsOffStart, Undisturbed, Under;
    StillRuns(s, ComesOn(on, c));
    RunFails(s, ComesOn(on, c));
    var set_ := SetRedzones(on.minRz, on.maxRz);
    var rest := c.coming + [set_] + c.sweep;
    if on.canPoison {
      assert ComesOn(on, c) == [Event.Activate] + rest;
      RunSplits(s, [Event.Activate], rest);
      One(s, Event.Activate);
      SetsRedzones(Apply(s, Event.Activate), c.coming, on, c.sweep);
    } else {
      assert ComesOn(on, c) == rest;
      SetsRedzones(s, c.coming, on, c.sweep);
      StaysQuietOff(s, on, c);
    }
  }

  lemma StaysQuietOff(s: State, on: Runtime, c: Cycle)
    requires Inv(s) && !s.failed && !s.mem.canPoison && Calm(c)
    requires CanRun(s, c.coming + [SetRedzones(on.minRz, on.maxRz)] + c.sweep)
    ensures !Exec(s, c.coming + [SetRedzones(on.minRz, on.maxRz)] + c.sweep).failed
  {
    hide CanRun, Exec, Inv, Undisturbed;
    var set_ := SetRedzones(on.minRz, on.maxRz);
    RunSplits(s, c.coming + [set_], c.sweep);
    RunSplits(s, c.coming, [set_]);
    RunLeavesSwitches(s, c.coming);
    OneSet(Exec(s, c.coming), on.minRz, on.maxRz);
    NoVisits(s, c.coming);
    NoVisits(Exec(s, c.coming + [set_]), c.sweep);
    NoCheckFails(s, c.coming + [set_] + c.sweep);
  }

  /** The whole cycle from any reached state under settings rt, other threads
      running all the time: the process stops in the sweep exactly when a visit
      meets a secondary block off its start, and only if poisoning was on before;
      otherwise redzones and poisoning switch are back to what they were. */
  lemma SettingsBack(s0: State, before: seq<Event>, rt: Runtime, c: Cycle, same: Flags -> Flags)
    requires Initial(s0) && CanRun(s0, before) && Under(Exec(s0, before), rt)
    requires Typed(rt) && FromOptions(rt) && Calm(c) && forall f: Flags :: same(f) == f
    requires var s := Exec(s0, before); var off := Deactivated(rt);
      var on := Activated(off, Overridden(Stash(rt), same));
      CanRun(s, GoesOff(off, c)) && CanRun(Exec(s, GoesOff(off, c)), ComesOn(on, c))
    ensures var s := Exec(s0, before); var off := Deactivated(rt);
      var on := Activated(off, Overridden(Stash(rt), same));
      var g := Exec(s, GoesOff(off, c));
      var f := Exec(g, ComesOn(on, c));
      && Under(g, off) && !g.mem.canPoison && g.maxRz == HEADER
      && (f.failed <==> SweepsOffStart(g, ComesOn(on, c))) && (f.failed ==> s.mem.canPoison)
      && f.minRz == s.minRz && f.maxRz == s.maxRz && f.mem.canPoison == s.mem.canPoison
  {
    hide CanRun, Exec, Inv, MetaInv, ShadowInv, LogInv, Balanced, SweepsOffStart, GoesOff, ComesOn;
    hide Undisturbed, Overridden, Stash, Typed, FromOptions;
    var s, off := Exec(s0, before), Deactivated(rt);
    RestoresExactly(rt, same);
    OffSettings(s, off, c);
    Joined(s0, before, GoesOff(off, c));
    Reached(s0, before + GoesOff(off, c));
    OnSettings(Exec(s, GoesOff(off, c)), rt, c);
  }

  /** And if poisoning was on before, and the sweep comes to every block handed
      out whose shadow may be wrong: every block handed out is sound again, and
      shadow says exactly which bytes are allocated in every one that is at rest,
      if and only if no visit caught its chunk open. */
  lemma OffAndOnAgain(s0: State, before: seq<Event>, rt: Runtime, c: Cycle, same: Flags -> Flags, b: nat)
    requires Initial(s0) && CanRun(s0, before) && Under(Exec(s0, before), rt) && rt.canPoison
    requires Typed(rt) && FromOptions(rt) && Calm(c) && forall f: Flags :: same(f) == f
    requires var s := Exec(s0, before); var off := Deactivated(rt);
      var on := Activated(off, Overridden(Stash(rt), same));
      && CanRun(s, GoesOff(off, c)) && CanRun(Exec(s, GoesOff(off, c)), ComesOn(on, c))
      && (forall x :: x in Pending(Exec(s, GoesOff(off, c))) ==> Visit(x) in c.sweep)
    ensures var off := Deactivated(rt); var on := Activated(off, Overridden(Stash(rt), same));
      var f := Exec(Exec(Exec(s0, before), GoesOff(off, c)), ComesOn(on, c));
      !f.failed && b in f.used ==> b in f.sound && (AtRest(f, b) ==> (Exact(f.mem, b) <==> !Caught(f, b)))
  {
    hide CanRun, Exec, Inv, MetaInv, ShadowInv, LogInv, Balanced, GoesOff, Exact, AtRest, Caught;
    hide Undisturbed, Overridden, Deactivated, Activated, Stash, Typed, FromOptions, Initial, Pending;
    var s, off := Exec(s0, before), Deactivated(rt);
    RestoresExactly(rt, same);
    var g := Exec(s, GoesOff(off, c));
    Joined(s0, before, GoesOff(off, c));
    SweptSound(s0, before + GoesOff(off, c), rt, c);
    Joined(s0, before + GoesOff(off, c), ComesOn(rt, c));
    var run := before + GoesOff(off, c) + ComesOn(rt, c);
    var f := Exec(s0, run);
    if !f.failed && b in f.used && AtRest(f, b) { AddressableIffAllocated(s0, run, b); }
  }

  lemma SweptSound(s0: State, es: seq<Event>, on: Runtime, c: Cycle)
    requires Initial(s0) && CanRun(s0, es) && CanRun(Exec(s0, es), ComesOn(on, c)) && on.canPoison && Calm(c)
    requires forall x :: x in Pending(Exec(s0, es)) ==> Visit(x) in c.sweep
    ensures var f := Exec(Exec(s0, es), ComesOn(on, c)); !f.failed ==> f.used <= f.sound
  {
    hide CanRun, Exec, Initial;
    var set_ := SetRedzones(on.minRz, on.maxRz);
    var fs := c.coming + [set_] + c.sweep;
    assert ComesOn(on, c) == [Event.Activate] + fs;
    var g := Exec(s0, es);
    RunSplits(g, [Event.Activate], fs);
    One(g, Event.Activate);
    Joined(s0, es, [Event.Activate]);
    forall x | x in Pending(Exec(s0, es + [Event.Activate])) ensures Visit(x) in fs {
      assert x in Pending(g);
    }
    SoundAfterSweep(s0, es + [Event.Activate], fs);
  }

  lemma SmallAlign(p: Plan)
    requires GoodPlan(p) && p.align <= 16
    ensures 8 <= p.align <= 16 && p.align % 8 == 0
  {
    hide NeededSize, RZLog2Size;
  }
}
