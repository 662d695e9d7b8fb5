/** One chunk's whole life, undisturbed: allocated, freed, quarantined, recycled
    and its block given back. Every step is possible from every reachable
    state, and at the end nothing of the chunk is left. Then runs in which a
    sweep comes at the wrong moment. */
module HeapLife {
  import opened Wrappers
  import opened ChunkLayout
  import opened Shadow
  import opened HeapMemory
  import opened HeapMachine
  import opened HeapMetadata
  import opened HeapShadow
  import opened HeapAccounts
  import opened HeapSafety
  import opened Verdict

  function Allocates(e: Event): seq<Event>
    requires e.Malloc?
  {
    [e, Move(e.t), Move(e.t)]
  }

  function Frees(t: nat, m: nat): seq<Event> { [Free(t, m + HEADER), Move(t), Move(t)] }

  function Recycles(t: nat, m: nat): seq<Event> { [Dequeue(t, m), Move(t), Move(t)] }

  /** Compared with state s0, only chunk c at m is added. */
  ghost predicate Midway(s0: State, s: State, t: nat, m: nat, c: Chunk) {
    && Inv(s) && m !in s0.chunks && c.b !in s0.occ && t < INVALID_TID
    && s.chunks == s0.chunks[m := c] && s.occ == s0.occ[c.b := m] && s.mem.blocks == s0.mem.blocks
    && s.queue == s0.queue + (if c.stage == Queued then multiset{m} else multiset{})
    && (if c.stage.Busy? then c.stage.t == t else PcOf(s, t) == Idle)
    && !s.failed && (forall u :: u != t ==> PcOf(s, u) == PcOf(s0, u))
    && s.mem.canPoison == s0.mem.canPoison
    && (s.mem.canPoison && c.b in s0.sound ==> c.b in s.sound)
    && (s.mem.canPoison && UserClosed(c.stage) ==> m in s.tagged) && m !in s.caught
  }

  function After(c: Chunk, t: nat): Chunk
    requires c.stage.Busy? && !c.stage.step.Release?
  {
    match c.stage.step
    case Fill(_, _, _) => c.(stage := Busy(t, Publish))
    case Publish => c.(stage := Live)
    case Quarantine => c.(stage := Busy(t, Put), freeTid := t)
    case Put => c.(stage := Queued)
    case Recycle => c.(stage := Busy(t, Release(c.b)))
  }

  lemma Born(s: State, e: Event)
    requires Inv(s) && e.Malloc? && MallocEnabled(s, e) && !s.failed
    ensures Midway(s, DoMalloc(s, e), e.t, NewAddr(s, e), NewChunk(s, e))
  {
    hide Inv, Placed, AllocateChecks, NewAddr, PlanFor, NewHeader;
    MallocKeeps(s, e);
    MallocPlaces(s, e);
    InsideOwn(s.mem.blocks, NewAddr(s, e), NewChunk(s, e));
    FreeBlockQuiet(s, e.b, NewAddr(s, e));
  }

  /** What a busy chunk's thread needs for its next step. */
  lemma BusyFacts(s: State, m: nat)
    requires Inv(s) && m in s.chunks && s.chunks[m].stage.Busy?
    ensures var c := s.chunks[m];
      PcOf(s, c.stage.t) == At(m, c.stage.step) && c.b in s.mem.blocks && MoveEnabled(s, c.stage.t)
      && (c.stage.step.Fill? ==> c.stage.step == Fill(c.b, c.size, c.h))
      && (c.stage.step.Recycle? ==> AllocBeg(s.mem, m) == c.b)
  {
    hide Inv, AllocBeg, Quiet;
    HoldsChunk(s, m);
    NeverStuck(s, s.chunks[m].stage.t);
    if s.chunks[m].stage.step.Recycle? { MetadataRoundTrip(s.mem, m, s.chunks[m]); }
  }

  /** What a step does to everything but the words of memory. */
  ghost predicate Stepped(s: State, f: State, t: nat, m: nat, c': Chunk) {
    && f.chunks == s.chunks[m := c'] && f.occ == s.occ && f.mem.blocks == s.mem.blocks
    && f.queue == s.queue + (if c'.stage == Queued then multiset{m} else multiset{})
    && (!c'.stage.Busy? ==> PcOf(f, t) == Idle) && (forall u :: u != t ==> PcOf(f, u) == PcOf(s, u))
    && f.failed == s.failed && f.mem.canPoison == s.mem.canPoison && (s.mem.canPoison ==> f.sound == s.sound)
    && (s.mem.canPoison && m in s.chunks && (UserClosed(s.chunks[m].stage) ==> m in s.tagged) ==>
          (UserClosed(c'.stage) ==> m in f.tagged))
    && (m !in s.caught ==> m !in f.caught)
  }

  lemma FillAndPublish(s: State, t: nat, m: nat)
    requires m in s.chunks && s.chunks[m].stage.Busy? && MoveEnabled(s, t)
    requires PcOf(s, t) == At(m, s.chunks[m].stage.step)
    requires var step := s.chunks[m].stage.step; step.Fill? || step.Publish?
    ensures Stepped(s, DoMove(s, t), t, m, After(s.chunks[m], t))
  {
    hide FillChunk, SetState;
  }

  lemma FreeAndPut(s: State, t: nat, m: nat)
    requires m in s.chunks && s.chunks[m].stage.Busy? && MoveEnabled(s, t)
    requires PcOf(s, t) == At(m, s.chunks[m].stage.step)
    requires var step := s.chunks[m].stage.step; step.Put? || (step.Quarantine? && QuarantineChecks(s.mem, m))
    ensures Stepped(s, DoMove(s, t), t, m, After(s.chunks[m], t))
  {
    hide QuarantineChunk, UsedSize, QuarantineChecks;
  }

  lemma Recycling(s: State, t: nat, m: nat)
    requires m in s.chunks && s.chunks[m].stage.Busy? && MoveEnabled(s, t)
    requires PcOf(s, t) == At(m, s.chunks[m].stage.step)
    requires s.chunks[m].stage.step.Recycle? && AllocBeg(s.mem, m) == s.chunks[m].b && RecycleChecks(s.mem, m)
    ensures Stepped(s, DoMove(s, t), t, m, After(s.chunks[m], t))
  {
    hide RecycleChunk, UsedSize, AllocBeg, RecycleChecks;
  }

  lemma MoveOn(s0: State, s: State, t: nat, m: nat, c: Chunk)
    requires Midway(s0, s, t, m, c) && c.stage.Busy? && !c.stage.step.Release?
    ensures MoveEnabled(s, t) && Midway(s0, DoMove(s, t), t, m, After(c, t))
  {
    hide Inv, MoveEnabled, DoMove, AllocBeg, QuarantineChecks, RecycleChecks, Stepped, Load;
    BusyFacts(s, m);
    if c.stage.step.Quarantine? { QuarantineKeeps(s, t, m); }
    if c.stage.step.Recycle? { RecycleKeeps(s, t, m); }
    match c.stage.step {
      case Fill(_, _, _) => FillAndPublish(s, t, m);
      case Publish => FillAndPublish(s, t, m);
      case Recycle => Recycling(s, t, m);
      case _ => FreeAndPut(s, t, m);
    }
    MoveKeeps(s, t);
    SteppedMidway(s0, s, DoMove(s, t), t, m, c, After(c, t));
  }

  lemma SteppedMidway(s0: State, s: State, s': State, t: nat, m: nat, c: Chunk, c': Chunk)
    requires Midway(s0, s, t, m, c) && Stepped(s, s', t, m, c') && Inv(s') && c.stage != Queued
    requires c'.b == c.b && (c'.stage.Busy? ==> c'.stage.t == t)
    ensures Midway(s0, s', t, m, c')
  {
    hide Inv;
    forall u | u != t ensures PcOf(s', u) == PcOf(s0, u) { assert PcOf(s, u) == PcOf(s0, u); }
  }

  lemma FreeOn(s0: State, s: State, t: nat, m: nat, c: Chunk)
    requires Midway(s0, s, t, m, c) && c.stage == Live
    ensures Midway(s0, DoFree(s, t, m + HEADER), t, m, c.(stage := Busy(t, Quarantine)))
  {
    hide Inv, Load, Pack, Store, GoodBlocks, UserOpen;
    FreeKeeps(s, t, m + HEADER);
    HoldsChunk(s, m);
    LoadStored(s.mem, m, c);
  }

  lemma DequeueOn(s0: State, s: State, t: nat, m: nat, c: Chunk)
    requires Midway(s0, s, t, m, c) && c.stage == Queued
    ensures m in s.queue && Midway(s0, DoDequeue(s, t, m), t, m, c.(stage := Busy(t, Recycle)))
  {
    hide Inv;
    QueuedOnce(s0, s, t, m, c);
    DequeueKeeps(s, t, m);
  }

  lemma QueuedOnce(s0: State, s: State, t: nat, m: nat, c: Chunk)
    requires Midway(s0, s, t, m, c) && c.stage == Queued
    ensures m in s.queue && s.queue - multiset{m} == s0.queue
  {
    hide Inv;
  }

  lemma Gone(s0: State, s: State, t: nat, m: nat, c: Chunk)
    requires Midway(s0, s, t, m, c) && c.stage == Busy(t, Release(c.b))
    ensures MoveEnabled(s, t)
    ensures var f := DoMove(s, t);
      && Inv(f) && f.occ == s0.occ && f.chunks == s0.chunks && f.queue == s0.queue && PcOf(f, t) == Idle
      && c.b in s0.mem.blocks && !f.failed
      && f.mem.blocks == (if s0.mem.blocks[c.b].primary then s0.mem.blocks else s0.mem.blocks - {c.b})
  {
    hide Inv;
    BusyFacts(s, m);
    MoveKeeps(s, t);
  }

  // ------------------------------------------------------------ the three acts

  lemma Three(s: State, e1: Event, e2: Event, e3: Event)
    requires Enabled(s, e1) && Enabled(Apply(s, e1), e2) && Enabled(Apply(Apply(s, e1), e2), e3)
    ensures CanRun(s, [e1, e2, e3]) && Exec(s, [e1, e2, e3]) == Apply(Apply(Apply(s, e1), e2), e3)
  {
    hide Enabled, Apply;
    assert [e1, e2, e3][1..] == [e2, e3] && [e2, e3][1..] == [e3] && [e3][1..] == [];
    var s1 := Apply(s, e1);
    var s2 := Apply(s1, e2);
    var s3 := Apply(s2, e3);
    assert CanRun(s3, []) && Exec(s3, []) == s3;
    assert CanRun(s2, [e3]) && Exec(s2, [e3]) == s3;
    assert CanRun(s1, [e2, e3]) && Exec(s1, [e2, e3]) == s3;
  }

  /** Allocating can always be finished, and leaves one more live chunk. */
  lemma AllocatesOn(s: State, e: Event)
    requires Inv(s) && e.Malloc? && Enabled(s, e)
    ensures CanRun(s, Allocates(e))
    ensures Midway(s, Exec(s, Allocates(e)), e.t, NewAddr(s, e), NewChunk(s, e).(stage := Live))
  {
    hide Inv, MallocEnabled, MoveEnabled, DoMalloc, DoMove, NewAddr, NewChunk, CanRun, Exec;
    var t, m, c := e.t, NewAddr(s, e), NewChunk(s, e);
    NewIsFill(s, e);
    Born(s, e);
    var s1 := DoMalloc(s, e);
    MoveOn(s, s1, t, m, c);
    MoveOn(s, DoMove(s1, t), t, m, After(c, t));
    Three(s, e, Move(t), Move(t));
  }

  lemma NewIsFill(s: State, e: Event)
    requires e.Malloc? && MallocEnabled(s, e)
    ensures var c := NewChunk(s, e); c.b == e.b && c.b in s.mem.blocks && c.stage == Busy(e.t, Fill(c.b, c.size, c.h))
  {
  }

  /** Freeing a live chunk can always be finished, and leaves it in the quarantine. */
  lemma FreesOn(s0: State, s: State, t: nat, m: nat, c: Chunk)
    requires Midway(s0, s, t, m, c) && c.stage == Live
    ensures CanRun(s, Frees(t, m)) && Midway(s0, Exec(s, Frees(t, m)), t, m, c.(stage := Queued, freeTid := t))
  {
    hide Inv, MoveEnabled, DoFree, DoMove, CanRun, Exec;
    FreeOn(s0, s, t, m, c);
    var s1, c1 := DoFree(s, t, m + HEADER), c.(stage := Busy(t, Quarantine));
    MoveOn(s0, s1, t, m, c1);
    MoveOn(s0, DoMove(s1, t), t, m, After(c1, t));
    Three(s, Free(t, m + HEADER), Move(t), Move(t));
  }

  /** All of s0's chunks, and only those. */
  ghost predicate Back(s0: State, f: State, t: nat, b: nat) {
    && Inv(f) && f.occ == s0.occ && f.chunks == s0.chunks && f.queue == s0.queue && PcOf(f, t) == Idle
    && b in s0.mem.blocks && !f.failed
    && f.mem.blocks == (if s0.mem.blocks[b].primary then s0.mem.blocks else s0.mem.blocks - {b})
  }

  /** Recycling a quarantined chunk can always be finished, and leaves nothing of it. */
  lemma RecyclesOn(s0: State, s: State, t: nat, m: nat, c: Chunk)
    requires Midway(s0, s, t, m, c) && c.stage == Queued
    ensures CanRun(s, Recycles(t, m)) && Back(s0, Exec(s, Recycles(t, m)), t, c.b)
  {
    hide Inv, MoveEnabled, DoDequeue, DoMove, CanRun, Exec;
    DequeueOn(s0, s, t, m, c);
    var s1, c1 := DoDequeue(s, t, m), c.(stage := Busy(t, Recycle));
    MoveOn(s0, s1, t, m, c1);
    Gone(s0, DoMove(s1, t), t, m, After(c1, t));
    Three(s, Dequeue(t, m), Move(t), Move(t));
  }

  /** From every state in which thread e.t may allocate, the whole life can be
      run, and it ends with chunks, blocks handed out and quarantine as before;
      a secondary block is unmapped. */
  lemma ThereAndBack(s: State, e: Event)
    requires Inv(s) && e.Malloc? && Enabled(s, e)
    ensures var life := Allocates(e) + Frees(e.t, NewAddr(s, e)) + Recycles(e.t, NewAddr(s, e));
      CanRun(s, life) && Back(s, Exec(s, life), e.t, e.b)
  {
    hide Inv, MallocEnabled, NewAddr, NewChunk, Midway, Back, CanRun, Exec, Allocates, Frees, Recycles;
    var t, m, c := e.t, NewAddr(s, e), NewChunk(s, e);
    NewIsFill(s, e);
    AllocatesOn(s, e);
    var s1 := Exec(s, Allocates(e));
    FreesOn(s, s1, t, m, c.(stage := Live));
    var s2 := Exec(s1, Frees(t, m));
    RecyclesOn(s, s2, t, m, c.(stage := Queued, freeTid := t));
    Joined(s, Allocates(e), Frees(t, m));
    Joined(s, Allocates(e) + Frees(t, m), Recycles(t, m));
  }

  // ------------------------------------------------ runs that show what fails

  lemma Two(s: State, e1: Event, e2: Event)
    requires Enabled(s, e1) && Enabled(Apply(s, e1), e2)
    ensures CanRun(s, [e1, e2]) && Exec(s, [e1, e2]) == Apply(Apply(s, e1), e2)
  {
    hide Enabled, Apply;
    assert [e1, e2][1..] == [e2] && [e2][1..] == [];
    var s1 := Apply(s, e1);
    var s2 := Apply(s1, e2);
    assert CanRun(s2, []) && Exec(s2, []) == s2;
    assert CanRun(s1, [e2]) && Exec(s1, [e2]) == s2;
  }

  lemma SwitchedOn(s: State)
    requires Inv(s) && !s.failed
    ensures Enabled(s, Event.Activate) && Inv(Apply(s, Event.Activate))
    ensures Apply(s, Event.Activate) == s.(mem := s.mem.(canPoison := true))
  {
    hide Inv;
    EventKeeps(s, Event.Activate);
  }

  /** From every state: allocate from the secondary allocator with a redzone
      above 16 or with moved user memory, and a sweep that comes to the block
      stops the process. */
  lemma LargeChunkStopsSweep(s: State, e: Event)
    requires Inv(s) && e.Malloc? && Enabled(s, e) && !s.mem.blocks[e.b].primary && NewAddr(s, e) != e.b
    ensures var run := Allocates(e) + [Event.Activate, Visit(e.b)]; CanRun(s, run) && Exec(s, run).failed
  {
    hide Inv, CanRun, Exec, Allocates, MallocEnabled, NewAddr, NewChunk, SizeQueryOk, RePoison;
    var m := NewAddr(s, e);
    NewIsFill(s, e);
    AllocatesOn(s, e);
    var s1 := Exec(s, Allocates(e));
    SwitchedOn(s1);
    var s2 := Apply(s1, Event.Activate);
    Home(s2, m);
    SweepQueryExact(s2, m);
    Two(s1, Event.Activate, Visit(e.b));
    Joined(s, Allocates(e), [Event.Activate, Visit(e.b)]);
  }

  /** From every state: while an allocation from the secondary allocator has not
      written its metadata, a sweep that comes to the block stops the process. */
  lemma HalfFilledStopsSweep(s: State, e: Event)
    requires Inv(s) && MetaInv(s) && e.Malloc? && Enabled(s, e) && !s.mem.blocks[e.b].primary
    ensures var run := [e, Event.Activate, Visit(e.b)]; CanRun(s, run) && Exec(s, run).failed
  {
    hide Inv, MetaInv, CanRun, Exec, MallocEnabled, NewAddr, NewChunk, DoMalloc, SizeQueryOk, RePoison, OffStart;
    NewIsFill(s, e);
    Born(s, e);
    EventMeta(s, e);
    var s1 := Apply(s, e);
    SwitchedOn(s1);
    EventMeta(s1, Event.Activate);
    var s2 := Apply(s1, Event.Activate);
    Home(s2, NewAddr(s, e));
    StopsAtOffStart(s2, e.b);
    Three(s, e, Event.Activate, Visit(e.b));
  }

  /** All user memory of chunk m is allocated, and denied. */
  predicate Denied(f: State, m: nat) {
    && m in f.chunks && f.chunks[m].stage == Live && f.chunks[m].b in f.mem.blocks
    && forall a: nat :: m + HEADER <= a < m + HEADER + f.chunks[m].size ==>
         InAllocated(f.mem, f.chunks[m].b, a) && a / GRANULE < |f.mem.shadow| && !Addressable(f.mem.shadow, a)
  }

  /** A visit that comes between an allocation's clearing of its user memory and
      its marking of the chunk poisons what is then handed to the program. */
  lemma VisitCatchesAllocation(s: State, t: nat, m: nat)
    requires Inv(s) && MetaInv(s) && !s.failed && PcOf(s, t) == At(m, Publish) && s.mem.canPoison
    requires m in s.chunks && !OffStart(s.mem, s.chunks[m].b)
    ensures var run := [Visit(s.chunks[m].b), Move(t)];
      CanRun(s, run) && Denied(Exec(s, run), m) && m in Exec(s, run).caught
  {
    hide Inv, MetaInv, CanRun, Exec, OffStart, SizeQueryOk, RePoison, Denied, Load, Pack;
    var b := s.chunks[m].b;
    AtOwn(s, t);
    Home(s, m);
    StopsAtOffStart(s, b);
    var s1 := Apply(s, Visit(b));
    CatchPoisons(s, t, m);
    EventKeeps(s, Visit(b));
    PublishKeeps(s1, t, m);
    Two(s, Visit(b), Move(t));
    PoisonedIsDenied(DoPublish(s1, t, m), m);
  }

  lemma CatchPoisons(s: State, t: nat, m: nat)
    requires Inv(s) && MetaInv(s) && PcOf(s, t) == At(m, Publish) && s.mem.canPoison
    requires m in s.chunks && Visitable(s, s.chunks[m].b) && SizeQueryOk(s.mem, s.chunks[m].b)
    ensures m in DoVisit(s, s.chunks[m].b).caught
    ensures AllOf(DoVisit(s, s.chunks[m].b).mem, s.chunks[m].b, HEAP_LEFT_REDZONE)
  {
    hide Inv, MetaInv, SizeQueryOk, AllOf, LooksInUse, ChunkOf, UsedSize, PoisonBlock;
    AtOwn(s, t);
    Home(s, m);
    VisitSees(s, s.chunks[m].b);
    PoisonsAll(s.mem, s.chunks[m].b);
  }

  lemma PoisonedIsDenied(f: State, m: nat)
    requires Inv(f) && m in f.chunks && f.chunks[m].stage == Live && AllOf(f.mem, f.chunks[m].b, HEAP_LEFT_REDZONE)
    ensures Denied(f, m)
  {
    hide Inv, Load, UsedSize, ChunkOf, AllocBeg, GoodBlocks, HeaderFor, StepFor, RoundUp;
    HoldsChunk(f, m);
    LiveIffAllocated(f, m);
    var c := f.chunks[m];
    FitsEnd(c.b, f.mem.blocks[c.b].size, m, c.size);
    forall a: nat | m + HEADER <= a < m + HEADER + c.size
      ensures InAllocated(f.mem, c.b, a) && a / GRANULE < |f.mem.shadow| && !Addressable(f.mem.shadow, a)
    {
      OwnsByte(f.mem.blocks, |f.mem.shadow|, c.b, a);
      RoundsUp(c.size);
    }
  }

  lemma RoundsUp(size: nat)
    ensures RoundUp(size, GRANULE) >= size
  {
  }

  /** From every reached state: an allocation, interrupted by a re-activation
      whose sweep comes to its block, hands out memory that shadow denies, unless
      the sweep stops the process. */
  lemma SweepPoisonsAllocation(s0: State, es: seq<Event>, e: Event)
    requires Initial(s0) && CanRun(s0, es) && e.Malloc? && Enabled(Exec(s0, es), e)
    requires var s := Exec(s0, es); s.mem.blocks[e.b].primary || NewAddr(s, e) == e.b
    ensures var s := Exec(s0, es); var run := [e, Move(e.t), Event.Activate] + [Visit(e.b), Move(e.t)];
      CanRun(s, run) && Denied(Exec(s, run), NewAddr(s, e))
  {
    hide Inv, MetaInv, ShadowInv, LogInv, Balanced, CanRun, Exec, MallocEnabled, MoveEnabled, DoMalloc, DoMove;
    hide NewAddr, NewChunk, OffStart, Denied, Initial;
    var s := Exec(s0, es);
    var t, m, c := e.t, NewAddr(s, e), NewChunk(s, e);
    Reached(s0, es);
    NewIsFill(s, e);
    Born(s, e);
    var s1 := Apply(s, e);
    MoveOn(s, s1, t, m, c);
    var s2 := Apply(s1, Move(t));
    EventMeta(s, e);
    EventMeta(s1, Move(t));
    SwitchedOn(s2);
    EventMeta(s2, Event.Activate);
    var s3 := Apply(s2, Event.Activate);
    BusyFacts(s3, m);
    Home(s3, m);
    StopsAtOffStart(s3, e.b);
    NotOffIf(s3, e.b);
    VisitCatchesAllocation(s3, t, m);
    Three(s, e, Move(t), Event.Activate);
    Joined(s, [e, Move(t), Event.Activate], [Visit(e.b), Move(t)]);
  }

  lemma NotOffIf(s: State, b: nat)
    requires b in s.mem.blocks
    ensures s.mem.blocks[b].primary ==> !OffStart(s.mem, b)
  {
  }

  /** A free while poisoning is off writes no shadow. */
  lemma FreesOff(s0: State, s: State, t: nat, m: nat, c: Chunk)
    requires Midway(s0, s, t, m, c) && c.stage == Live && !s.mem.canPoison
    ensures CanRun(s, Frees(t, m)) && Exec(s, Frees(t, m)).mem.shadow == s.mem.shadow
    ensures c.b !in Exec(s, Frees(t, m)).sound
  {
    hide Inv, MoveEnabled, DoFree, DoMove, CanRun, Exec;
    FreeOn(s0, s, t, m, c);
    var s1, c1 := DoFree(s, t, m + HEADER), c.(stage := Busy(t, Quarantine));
    MoveOn(s0, s1, t, m, c1);
    var s2 := DoMove(s1, t);
    MoveOn(s0, s2, t, m, After(c1, t));
    Three(s, Free(t, m + HEADER), Move(t), Move(t));
    BusyFacts(s1, m);
    BusyFacts(s2, m);
    QuarantineOff(s1, t, m);
    PutOff(s2, t, m);
    FreeShadowless(s, t, m + HEADER);
  }

  lemma FreeShadowless(s: State, t: nat, p: nat)
    ensures DoFree(s, t, p).mem.shadow == s.mem.shadow
  {
    hide Load, Pack;
  }

  lemma QuarantineOff(s: State, t: nat, m: nat)
    requires PcOf(s, t) == At(m, Quarantine) && MoveEnabled(s, t) && !s.mem.canPoison && m in s.chunks
    ensures DoMove(s, t).mem.shadow == s.mem.shadow && s.chunks[m].b !in DoMove(s, t).sound
  {
    hide Load, Pack, UsedSize, RoundUp, QuarantineChecks;
  }

  lemma PutOff(s: State, t: nat, m: nat)
    requires PcOf(s, t) == At(m, Put) && MoveEnabled(s, t)
    ensures DoMove(s, t).mem.shadow == s.mem.shadow && DoMove(s, t).sound == s.sound
  {
  }

  /** From every reached state with poisoning on and a sound block: allocate, and
      free while poisoning is off; on again, and until a sweep comes to the block
      its freed memory is addressable: the block is not sound, and not exact. */
  lemma FreedWhileOff(s0: State, es: seq<Event>, e: Event)
    requires Initial(s0) && CanRun(s0, es)
    requires var s := Exec(s0, es); s.mem.canPoison && e.Malloc? && Enabled(s, e) && e.b in s.sound
    ensures var s := Exec(s0, es); var m := NewAddr(s, e);
      var run := Allocates(e) + [Event.Deactivate] + Frees(e.t, m) + [Event.Activate];
      && CanRun(s, run)
      && var f := Exec(s, run);
         f.mem.canPoison && AtRest(f, e.b) && e.b !in f.sound && !Exact(f.mem, e.b)
  {
    hide Inv, MetaInv, ShadowInv, LogInv, Balanced, CanRun, Exec, Initial, Allocates, Frees;
    hide MallocEnabled, NewAddr, NewChunk, ChunkOf, Load, UsedSize, Addressable;
    var s := Exec(s0, es);
    var t, m, c := e.t, NewAddr(s, e), NewChunk(s, e).(stage := Live);
    Reached(s0, es);
    NewIsFill(s, e);
    AllocatesOn(s, e);
    var s1 := Exec(s, Allocates(e));
    Joined(s0, es, Allocates(e));
    FirstByteOpen(s0, es + Allocates(e), m);
    var s2 := s1.(mem := s1.mem.(canPoison := false));
    SwitchedOff(s1);
    var base := s.(mem := s.mem.(canPoison := false));
    OffMidway(s, s1, t, m, c);
    FreesOn(base, s2, t, m, c);
    FreesOff(base, s2, t, m, c);
    var s3 := Exec(s2, Frees(t, m));
    SwitchedOn(s3);
    var f := Apply(s3, Event.Activate);
    Joined(s, Allocates(e), [Event.Deactivate]);
    Joined(s, Allocates(e) + [Event.Deactivate], Frees(t, m));
    Single(s3, Event.Activate);
    Joined(s, Allocates(e) + [Event.Deactivate] + Frees(t, m), [Event.Activate]);
    QueuedNotExact(f, e.b, m);
  }

  lemma Single(s: State, e: Event)
    requires Enabled(s, e)
    ensures CanRun(s, [e]) && Exec(s, [e]) == Apply(s, e)
  {
    hide Enabled, Apply;
    assert [e][1..] == [];
    assert CanRun(Apply(s, e), []) && Exec(Apply(s, e), []) == Apply(s, e);
  }

  lemma SwitchedOff(s: State)
    requires Inv(s) && !s.failed
    ensures CanRun(s, [Event.Deactivate]) && Exec(s, [Event.Deactivate]) == s.(mem := s.mem.(canPoison := false))
    ensures Inv(s.(mem := s.mem.(canPoison := false)))
  {
    hide Inv, CanRun, Exec;
    EventKeeps(s, Event.Deactivate);
    Single(s, Event.Deactivate);
  }

  lemma OffMidway(s0: State, s: State, t: nat, m: nat, c: Chunk)
    requires Midway(s0, s, t, m, c) && Inv(s.(mem := s.mem.(canPoison := false)))
    ensures Midway(s0.(mem := s0.mem.(canPoison := false)), s.(mem := s.mem.(canPoison := false)), t, m, c)
  {
    hide Inv;
    var s0', s' := s0.(mem := s0.mem.(canPoison := false)), s.(mem := s.mem.(canPoison := false));
    forall u | u != t ensures PcOf(s', u) == PcOf(s0', u) { assert PcOf(s, u) == PcOf(s0, u); }
  }

  /** The first byte of a live chunk in a sound block is addressable. */
  lemma FirstByteOpen(s0: State, es: seq<Event>, m: nat)
    requires Initial(s0) && CanRun(s0, es)
    requires var f := Exec(s0, es);
      m in f.chunks && f.chunks[m].stage == Live && f.chunks[m].b in f.sound && m !in f.caught
    ensures var f := Exec(s0, es);
      && f.chunks[m].b in f.mem.blocks && Inside(f.mem.blocks, f.chunks[m].b, m + HEADER)
      && (m + HEADER) / GRANULE < |f.mem.shadow| && Addressable(f.mem.shadow, m + HEADER)
  {
    hide Inv, MetaInv, ShadowInv, LogInv, Balanced, CanRun, Exec, Initial, Addressable, HeaderFor, StepFor;
    var f := Exec(s0, es);
    Reached(s0, es);
    HoldsChunk(f, m);
    var c := f.chunks[m];
    FitsEnd(c.b, f.mem.blocks[c.b].size, m, c.size);
    AddressableByStage(f, c.b, m + HEADER);
    RoundsUp(c.size);
  }

  lemma QueuedNotExact(f: State, b: nat, m: nat)
    requires Inv(f) && m in f.chunks && f.chunks[m].stage == Queued && f.chunks[m].b == b && b in f.mem.blocks
    requires Inside(f.mem.blocks, b, m + HEADER) && (m + HEADER) / GRANULE < |f.mem.shadow|
    requires Addressable(f.mem.shadow, m + HEADER)
    ensures AtRest(f, b) && !Exact(f.mem, b)
  {
    hide Inv, Load, UsedSize, ChunkOf, Addressable;
    Home(f, m);
    LiveIffAllocated(f, m);
  }

  /** From every reached state with poisoning on and a sound block: allocate and
      free, and an access to the freed memory is a use after free; go off and on
      again, with a sweep, and the same access is named a buffer overflow. */
  lemma FreeTagIsLost(s0: State, es: seq<Event>, e: Event, a: nat, accessSize: nat)
    requires Initial(s0) && CanRun(s0, es) && accessSize > 0
    requires var s := Exec(s0, es);
      && s.mem.canPoison && e.Malloc? && Enabled(s, e) && e.b in s.sound
      && (s.mem.blocks[e.b].primary || NewAddr(s, e) == e.b)
      && NewAddr(s, e) + HEADER <= a < NewAddr(s, e) + HEADER + NewChunk(s, e).size
    ensures var s := Exec(s0, es); var life := Allocates(e) + Frees(e.t, NewAddr(s, e));
      var cycle := [Event.Deactivate, Event.Activate, Visit(e.b)];
      && CanRun(s, life) && VerdictOf(Exec(s, life).mem.shadow, a, accessSize) == HeapUseAfterFree
      && CanRun(Exec(s, life), cycle)
      && VerdictOf(Exec(Exec(s, life), cycle).mem.shadow, a, accessSize) == HeapBufferOverflow
  {
    hide Inv, MetaInv, ShadowInv, LogInv, Balanced, CanRun, Exec, Initial, Allocates, Frees;
    hide MallocEnabled, NewAddr, NewChunk, VerdictOf, UsedSize, ChunkOf, Load;
    var s := Exec(s0, es);
    var t, m, c := e.t, NewAddr(s, e), NewChunk(s, e);
    Reached(s0, es);
    NewIsFill(s, e);
    AllocatesOn(s, e);
    FreesOn(s, Exec(s, Allocates(e)), t, m, c.(stage := Live));
    Joined(s, Allocates(e), Frees(t, m));
    Joined(s0, es, Allocates(e) + Frees(t, m));
    FreedVerdict(s0, es + (Allocates(e) + Frees(t, m)), s, t, m, c.(stage := Queued, freeTid := t), a, accessSize);
  }

  lemma FreedVerdict(s0: State, es: seq<Event>, s: State, t: nat, m: nat, c: Chunk, a: nat, accessSize: nat)
    requires Initial(s0) && CanRun(s0, es) && accessSize > 0 && s.mem.canPoison && c.b in s.sound
    requires Midway(s, Exec(s0, es), t, m, c) && c.stage == Queued && m + HEADER <= a < m + HEADER + c.size
    requires c.b in s.mem.blocks && (s.mem.blocks[c.b].primary || m == c.b)
    ensures var f := Exec(s0, es); var cycle := [Event.Deactivate, Event.Activate, Visit(c.b)];
      && VerdictOf(f.mem.shadow, a, accessSize) == HeapUseAfterFree
      && CanRun(f, cycle) && VerdictOf(Exec(f, cycle).mem.shadow, a, accessSize) == HeapBufferOverflow
  {
    hide Inv, MetaInv, ShadowInv, LogInv, Balanced, CanRun, Exec, Initial, VerdictOf, UsedSize;
    hide ChunkOf, Load, OffStart, SizeQueryOk, RePoison;
    var f := Exec(s0, es);
    LiveIffAllocated(f, m);
    QuarantinedVerdict(s0, es, m, a, accessSize);
    var f1 := Apply(f, Event.Deactivate);
    var f2 := Apply(f1, Event.Activate);
    Two(f, Event.Deactivate, Event.Activate);
    Joined(s0, es, [Event.Deactivate, Event.Activate]);
    Reached(s0, es + [Event.Deactivate, Event.Activate]);
    Home(f2, m);
    StopsAtOffStart(f2, c.b);
    NotOffIf(f2, c.b);
    LiveIffAllocated(f2, m);
    SweepLosesTag(s0, es + [Event.Deactivate, Event.Activate], m, a, accessSize);
    Three(f, Event.Deactivate, Event.Activate, Visit(c.b));
  }
}
