/** Bookkeeping over whole runs: every allocation is quarantined and recycled
    at most once, keeps what Allocate recorded about it, and the statistics of
    all threads together add up to what the heap holds. */
module HeapAccounts {
  import opened ChunkLayout
  import opened Shadow
  import opened HeapMemory
  import opened HeapMachine
  import opened HeapMetadata
  import opened HeapShadow
  import opened Sums

  // -------------------------------------------------------------- allocations

  predicate IsPut(stage: Stage) { stage.Queued? || (stage.Busy? && (stage.step.Recycle? || stage.step.Release?)) }

  predicate IsRecycled(stage: Stage) { stage.Busy? && stage.step.Release? }

  function Once(p: bool): nat { if p then 1 else 0 }

  predicate Logged(s: State, m: nat)
    requires m in s.chunks
  {
    var c := s.chunks[m];
    && c.id < |s.log| && s.log[c.id].m == m && s.log[c.id].e.Malloc?
    && c.b == s.log[c.id].e.b && c.size == Max(s.log[c.id].e.request, 1) && Records(c.h, s.log[c.id].e)
  }

  /** The header says who allocated, how, from where and with what alignment. */
  predicate Records(h: Header, e: Event)
    requires e.Malloc?
  {
    && h.allocTid == e.t && h.allocType == e.allocType && h.lsanTag == e.lsanTag && h.context == e.context
    && UserAlignment(h.alignLog) == if e.alignment < 8 then 0 else Min(e.alignment, 512)
  }

  /** Allocation `id` still has its chunk. */
  predicate Standing(s: State, id: nat) {
    id < |s.log| && s.log[id].m in s.chunks && s.chunks[s.log[id].m].id == id
  }

  predicate Counted(s: State, id: nat) {
    if Standing(s, id) then
      && s.puts[id] == Once(IsPut(s.chunks[s.log[id].m].stage))
      && s.recycled[id] == Once(IsRecycled(s.chunks[s.log[id].m].stage))
    else s.puts[id] == Once(id < |s.log|) && s.recycled[id] == Once(id < |s.log|)
  }

  ghost predicate LogInv(s: State) {
    && (forall m :: m in s.chunks ==> Logged(s, m))
    && (forall id: nat :: Counted(s, id))
  }

  /** Only chunk m's record changes, and its counts with it. */
  ghost predicate Recounts(s: State, s': State, m: nat, c': Chunk) {
    && m in s.chunks && s'.chunks == s.chunks[m := c'] && s'.log == s.log
    && c' == s.chunks[m].(stage := c'.stage, freeTid := c'.freeTid)
    && (forall id: nat :: id != c'.id ==> s'.puts[id] == s.puts[id] && s'.recycled[id] == s.recycled[id])
    && s'.puts[c'.id] == Once(IsPut(c'.stage)) && s'.recycled[c'.id] == Once(IsRecycled(c'.stage))
  }

  lemma RecountKeeps(s: State, s': State, m: nat, c': Chunk)
    requires LogInv(s) && Recounts(s, s', m, c')
    ensures LogInv(s')
  {
    assert Logged(s, m);
    forall x | x in s'.chunks ensures Logged(s', x) { assert Logged(s, x); }
    forall id: nat ensures Counted(s', id) {
      assert Counted(s, id);
      if Standing(s, id) { assert Logged(s, s.log[id].m); }
    }
  }

  /** A step that changes no count: both stages agree on being put and recycled. */
  lemma SameCounts(s: State, s': State, m: nat, c': Chunk)
    requires LogInv(s) && m in s.chunks && s'.chunks == s.chunks[m := c'] && s'.log == s.log
    requires c' == s.chunks[m].(stage := c'.stage, freeTid := c'.freeTid)
    requires s'.puts == s.puts && s'.recycled == s.recycled
    requires IsPut(c'.stage) == IsPut(s.chunks[m].stage) && IsRecycled(c'.stage) == IsRecycled(s.chunks[m].stage)
    ensures LogInv(s')
  {
    hide LogInv;
    ChunkCounts(s, m);
    RecountKeeps(s, s', m, c');
  }

  lemma ChunkCounts(s: State, m: nat)
    requires LogInv(s) && m in s.chunks
    ensures Logged(s, m)
    ensures s.puts[s.chunks[m].id] == Once(IsPut(s.chunks[m].stage))
    ensures s.recycled[s.chunks[m].id] == Once(IsRecycled(s.chunks[m].stage))
  {
    assert Logged(s, m);
    assert Counted(s, s.chunks[m].id);
  }

  lemma MallocLogs(s: State, e: Event)
    requires Inv(s) && LogInv(s) && e.Malloc? && MallocEnabled(s, e)
    ensures LogInv(DoMalloc(s, e))
  {
    hide Inv, Dirty, AllocateChecks, MakePlan, Placed, NewHeader, UserBeg;
    var s' := DoMalloc(s, e);
    var m := NewAddr(s, e);
    MallocPlaces(s, e);
    InsideOwn(s.mem.blocks, m, NewChunk(s, e));
    FreeBlockQuiet(s, e.b, m);
    PlanArithmetic(e.request, e.alignment, s.minRz, s.maxRz);
    NewHeaderRecords(e, PlanFor(s, e), m);
    forall x | x in s'.chunks ensures Logged(s', x) {
      if x != m { assert Logged(s, x); }
    }
    forall id: nat ensures Counted(s', id) { MallocCounts(s, s', m, id); }
  }

  lemma NewHeaderRecords(e: Event, p: Plan, m: nat)
    requires e.Malloc? && p.Plan? && p.rzLog < 8 && PowerOfTwo(EffectiveAlign(e.alignment))
    ensures Records(NewHeader(e, p, m), e)
  {
    hide RZLog2Size, AlignmentLog, UserAlignment, PowerOfTwo;
    if e.alignment < 8 { SmallAlignment(e.alignment); } else { AlignmentRoundTrip(e.alignment); }
  }

  lemma SmallAlignment(a: nat)
    requires a < 8
    ensures UserAlignment(AlignmentLog(a)) == 0
  {
  }

  lemma MallocCounts(s: State, s': State, m: nat, id: nat)
    requires LogInv(s) && m !in s.chunks
    requires |s'.log| == |s.log| + 1 && s'.log[..|s.log|] == s.log && s'.log[|s.log|].m == m
    requires m in s'.chunks && s'.chunks == s.chunks[m := s'.chunks[m]] && s'.chunks[m].id == |s.log|
    requires !IsPut(s'.chunks[m].stage) && s'.puts == s.puts && s'.recycled == s.recycled
    ensures Counted(s', id)
  {
    assert Counted(s, id);
    assert id < |s.log| ==> s'.log[id] == s.log[id];
  }

  lemma ReleaseLogs(s: State, t: nat, m: nat, b: nat)
    requires Inv(s) && LogInv(s) && PcOf(s, t) == At(m, Release(b)) && b in s.mem.blocks
    ensures LogInv(DoRelease(s, t, m, b))
  {
    hide Inv, Unmap;
    var s' := DoRelease(s, t, m, b);
    AtOwn(s, t);
    ChunkCounts(s, m);
    forall x | x in s'.chunks ensures Logged(s', x) { assert Logged(s, x); }
    forall id: nat ensures Counted(s', id) {
      assert Counted(s, id);
    }
  }

  lemma EarlyLogs(s: State, t: nat, m: nat)
    requires LogInv(s) && m in s.chunks && s.chunks[m].stage.Busy? && MoveEnabled(s, t)
    requires PcOf(s, t) == At(m, s.chunks[m].stage.step)
    requires var step := s.chunks[m].stage.step; step.Fill? || step.Publish? || step.Quarantine?
    ensures LogInv(DoMove(s, t))
  {
    hide LogInv, FillChunk, SetState, QuarantineChunk, UsedSize, QuarantineChecks, StatsOf;
    SameCounts(s, DoMove(s, t), m, DoMove(s, t).chunks[m]);
  }

  lemma LateLogs(s: State, t: nat, m: nat)
    requires LogInv(s) && m in s.chunks && s.chunks[m].stage.Busy? && MoveEnabled(s, t)
    requires PcOf(s, t) == At(m, s.chunks[m].stage.step)
    requires var step := s.chunks[m].stage.step; step.Put? || step.Recycle?
    ensures LogInv(DoMove(s, t))
  {
    hide LogInv, RecycleChunk, UsedSize, AllocBeg, RecycleChecks, StatsOf;
    ChunkCounts(s, m);
    RecountKeeps(s, DoMove(s, t), m, DoMove(s, t).chunks[m]);
  }

  lemma MoveLogs(s: State, t: nat)
    requires Inv(s) && LogInv(s) && MoveEnabled(s, t)
    ensures LogInv(DoMove(s, t))
  {
    hide Inv, LogInv, DoFill, DoPublish, DoQuarantine, DoPut, DoRecycle, DoRelease, ChunkOk, GoodBlocks;
    AtOwn(s, t);
    match PcOf(s, t)
    case At(m, Release(b)) => ReleaseLogs(s, t, m, b);
    case At(m, Put) => LateLogs(s, t, m);
    case At(m, Recycle) => LateLogs(s, t, m);
    case At(m, _) => EarlyLogs(s, t, m);
  }

  lemma FreeLogs(s: State, t: nat, p: nat)
    requires Inv(s) && LogInv(s)
    ensures LogInv(DoFree(s, t, p))
  {
    hide Inv, LogInv, SetState, Load;
    if p >= HEADER && Load(s.mem, p - HEADER).state == ALLOCATED {
      var m := p - HEADER;
      AllocatedIsLive(s, m);
      SameCounts(s, DoFree(s, t, p), m, s.chunks[m].(stage := Busy(t, Quarantine)));
    }
  }

  lemma EventLogs(s: State, e: Event)
    requires Inv(s) && LogInv(s) && Enabled(s, e)
    ensures LogInv(Apply(s, e))
  {
    hide Inv, DoMalloc, DoMove, DoFree, MallocEnabled, MoveEnabled, DoVisit, Logged, Counted, MapBlock;
    match e
    case Malloc(_, _, _, _, _, _, _) => MallocLogs(s, e);
    case Move(t) => MoveLogs(s, t);
    case Free(t, p) => FreeLogs(s, t, p);
    case Dequeue(t, m) =>
      QueuedIsChunk(s, m);
      SameCounts(s, DoDequeue(s, t, m), m, s.chunks[m].(stage := Busy(t, Recycle)));
    case Map(_, _) => LogStays(s, Apply(s, e));
    case SetRedzones(_, _) => LogStays(s, Apply(s, e));
    case Deactivate => LogStays(s, Apply(s, e));
    case Activate => LogStays(s, Apply(s, e));
    case Visit(_) => LogStays(s, Apply(s, e));
  }

  lemma LogStays(s: State, s': State)
    requires LogInv(s) && s'.chunks == s.chunks && s'.log == s.log && s'.puts == s.puts && s'.recycled == s.recycled
    ensures LogInv(s')
  {
    forall x | x in s'.chunks ensures Logged(s', x) { assert Logged(s, x); }
    forall id: nat ensures Counted(s', id) { assert Counted(s, id); }
  }

  // --------------------------------------------------------------- statistics

  function Weight(c: Chunk, bytes: bool): nat { if bytes then c.size else 1 }

  /** What chunk m adds to the memory in use. */
  function OpenWeight(s: State, bytes: bool, m: nat): nat {
    if m in s.chunks && UserOpen(s.chunks[m].stage) then Weight(s.chunks[m], bytes) else 0
  }

  /** What chunk m adds to the memory freed but not yet given back. */
  function ClosedWeight(s: State, bytes: bool, m: nat): nat {
    if m in s.chunks && UserClosed(s.chunks[m].stage) then Weight(s.chunks[m], bytes) else 0
  }

  function Malloced(s: State, bytes: bool, t: nat): nat {
    if bytes then StatsOf(s, t).malloced else StatsOf(s, t).mallocs
  }

  function Freed(s: State, bytes: bool, t: nat): nat { if bytes then StatsOf(s, t).freed else StatsOf(s, t).frees }

  function ReallyFreed(s: State, bytes: bool, t: nat): nat {
    if bytes then StatsOf(s, t).reallyFreed else StatsOf(s, t).realFrees
  }

  ghost function TotalMalloced(s: State, bytes: bool): nat { Sum(s.stats.Keys, t => Malloced(s, bytes, t)) }

  ghost function TotalFreed(s: State, bytes: bool): nat { Sum(s.stats.Keys, t => Freed(s, bytes, t)) }

  ghost function TotalReallyFreed(s: State, bytes: bool): nat { Sum(s.stats.Keys, t => ReallyFreed(s, bytes, t)) }

  ghost function TotalOpen(s: State, bytes: bool): nat { Sum(s.chunks.Keys, m => OpenWeight(s, bytes, m)) }

  ghost function TotalClosed(s: State, bytes: bool): nat { Sum(s.chunks.Keys, m => ClosedWeight(s, bytes, m)) }

  /** The books balance, in bytes or in operations. */
  ghost predicate Balanced(s: State, bytes: bool) {
    && TotalMalloced(s, bytes) == TotalFreed(s, bytes) + TotalOpen(s, bytes)
    && TotalFreed(s, bytes) == TotalReallyFreed(s, bytes) + TotalClosed(s, bytes)
  }

  /** Thread t's counters change: the totals change by as much. */
  lemma StatsChange(s: State, s': State, t: nat, bytes: bool)
    requires s'.stats == s.stats[t := StatsOf(s', t)]
    ensures TotalMalloced(s', bytes) + Malloced(s, bytes, t) == TotalMalloced(s, bytes) + Malloced(s', bytes, t)
    ensures TotalFreed(s', bytes) + Freed(s, bytes, t) == TotalFreed(s, bytes) + Freed(s', bytes, t)
    ensures TotalReallyFreed(s', bytes) + ReallyFreed(s, bytes, t)
         == TotalReallyFreed(s, bytes) + ReallyFreed(s', bytes, t)
  {
    SumOneKey(s.stats.Keys, s'.stats.Keys, t, x => Malloced(s, bytes, x), x => Malloced(s', bytes, x));
    SumOneKey(s.stats.Keys, s'.stats.Keys, t, x => Freed(s, bytes, x), x => Freed(s', bytes, x));
    SumOneKey(s.stats.Keys, s'.stats.Keys, t, x => ReallyFreed(s, bytes, x), x => ReallyFreed(s', bytes, x));
  }

  /** Only chunk m changes, comes or goes: the totals change by as much. */
  lemma ChunksChange(s: State, s': State, m: nat, bytes: bool)
    requires forall x :: x != m ==> (x in s.chunks <==> x in s'.chunks)
    requires forall x :: x != m && x in s.chunks && x in s'.chunks ==> s.chunks[x] == s'.chunks[x]
    ensures TotalOpen(s', bytes) + OpenWeight(s, bytes, m) == TotalOpen(s, bytes) + OpenWeight(s', bytes, m)
    ensures TotalClosed(s', bytes) + ClosedWeight(s, bytes, m) == TotalClosed(s, bytes) + ClosedWeight(s', bytes, m)
  {
    SumOneKey(s.chunks.Keys, s'.chunks.Keys, m, x => OpenWeight(s, bytes, x), x => OpenWeight(s', bytes, x));
    SumOneKey(s.chunks.Keys, s'.chunks.Keys, m, x => ClosedWeight(s, bytes, x), x => ClosedWeight(s', bytes, x));
  }

  /** A step that moves chunk m within one part of its life changes no total. */
  lemma SameBooks(s: State, s': State, m: nat, bytes: bool)
    requires Balanced(s, bytes) && s'.stats == s.stats
    requires forall x :: x != m ==> (x in s.chunks <==> x in s'.chunks)
    requires forall x :: x != m && x in s.chunks && x in s'.chunks ==> s.chunks[x] == s'.chunks[x]
    requires OpenWeight(s', bytes, m) == OpenWeight(s, bytes, m)
    requires ClosedWeight(s', bytes, m) == ClosedWeight(s, bytes, m)
    ensures Balanced(s', bytes)
  {
    hide TotalOpen, TotalClosed;
    ChunksChange(s, s', m, bytes);
    SameStats(s, s', bytes);
  }

  lemma SameStats(s: State, s': State, bytes: bool)
    requires s'.stats == s.stats
    ensures TotalMalloced(s', bytes) == TotalMalloced(s, bytes)
    ensures TotalFreed(s', bytes) == TotalFreed(s, bytes)
    ensures TotalReallyFreed(s', bytes) == TotalReallyFreed(s, bytes)
  {
    SumSame(s.stats.Keys, x => Malloced(s, bytes, x), x => Malloced(s', bytes, x));
    SumSame(s.stats.Keys, x => Freed(s, bytes, x), x => Freed(s', bytes, x));
    SumSame(s.stats.Keys, x => ReallyFreed(s, bytes, x), x => ReallyFreed(s', bytes, x));
  }

  lemma FillBooks(s: State, t: nat, m: nat, b: nat, size: nat, h: Header, bytes: bool)
    requires Inv(s) && Balanced(s, bytes) && PcOf(s, t) == At(m, Fill(b, size, h)) && b in s.mem.blocks
    ensures Balanced(DoFill(s, t, m, b, size, h), bytes)
  {
    hide Inv, FillChunk, TotalMalloced, TotalFreed, TotalReallyFreed, TotalOpen, TotalClosed, HeaderFor, Fits;
    AtOwn(s, t);
    var s' := DoFill(s, t, m, b, size, h);
    ChunksChange(s, s', m, bytes);
    StatsChange(s, s', t, bytes);
  }

  lemma QuarantineBooks(s: State, t: nat, m: nat, bytes: bool)
    requires Inv(s) && Balanced(s, bytes) && PcOf(s, t) == At(m, Quarantine)
    ensures Balanced(DoQuarantine(s, t, m), bytes)
  {
    hide Inv, QuarantineChunk, TotalMalloced, TotalFreed, TotalReallyFreed, TotalOpen, TotalClosed;
    hide HeaderFor, Fits, UsedSize, QuarantineChecks;
    AtOwn(s, t);
    var s' := DoQuarantine(s, t, m);
    MetadataRoundTrip(s.mem, m, s.chunks[m]);
    ChunksChange(s, s', m, bytes);
    StatsChange(s, s', t, bytes);
  }

  lemma RecycleBooks(s: State, t: nat, m: nat, bytes: bool)
    requires Inv(s) && Balanced(s, bytes) && PcOf(s, t) == At(m, Recycle)
    ensures Balanced(DoRecycle(s, t, m), bytes)
  {
    hide Inv, RecycleChunk, TotalMalloced, TotalFreed, TotalReallyFreed, TotalOpen, TotalClosed, HeaderFor;
    hide Fits, UsedSize;
    hide RecycleChecks, AllocBeg;
    AtOwn(s, t);
    var s' := DoRecycle(s, t, m);
    MetadataRoundTrip(s.mem, m, s.chunks[m]);
    ChunksChange(s, s', m, bytes);
    StatsChange(s, s', t, bytes);
  }

  lemma MoveBooks(s: State, t: nat, bytes: bool)
    requires Inv(s) && Balanced(s, bytes) && MoveEnabled(s, t)
    ensures Balanced(DoMove(s, t), bytes)
  {
    hide Inv, Balanced, DoFill, DoQuarantine, DoRecycle, DoPublish, DoPut, DoRelease;
    match PcOf(s, t)
    case At(m, Fill(b, size, h)) => FillBooks(s, t, m, b, size, h, bytes);
    case At(m, Quarantine) => QuarantineBooks(s, t, m, bytes);
    case At(m, Recycle) => RecycleBooks(s, t, m, bytes);
    case At(m, _) => OtherBooks(s, t, m, bytes);
  }

  /** Publishing, queueing and releasing touch no counter. */
  lemma OtherBooks(s: State, t: nat, m: nat, bytes: bool)
    requires Inv(s) && Balanced(s, bytes) && MoveEnabled(s, t)
    requires PcOf(s, t).At? && PcOf(s, t).m == m
    requires var step := PcOf(s, t).step; step.Publish? || step.Put? || step.Release?
    ensures Balanced(DoMove(s, t), bytes)
  {
    hide Inv, Balanced, ChunkOk, GoodBlocks, DoPublish, DoPut, DoRelease, SameWeights;
    AtOwn(s, t);
    if PcOf(s, t).step.Release? {
      ReleaseWeights(s, t, m, PcOf(s, t).step.b, bytes);
    } else {
      RestWeights(s, t, m, bytes);
    }
    WeighsSame(s, DoMove(s, t), m, bytes);
  }

  /** Only chunk m may change, and not what it adds to either total. */
  ghost predicate SameWeights(s: State, s': State, m: nat, bytes: bool) {
    && s'.stats == s.stats
    && (forall x :: x != m ==> (x in s.chunks <==> x in s'.chunks))
    && (forall x :: x != m && x in s.chunks && x in s'.chunks ==> s.chunks[x] == s'.chunks[x])
    && OpenWeight(s', bytes, m) == OpenWeight(s, bytes, m) && ClosedWeight(s', bytes, m) == ClosedWeight(s, bytes, m)
  }

  lemma WeighsSame(s: State, s': State, m: nat, bytes: bool)
    requires Balanced(s, bytes) && SameWeights(s, s', m, bytes)
    ensures Balanced(s', bytes)
  {
    hide Balanced;
    SameBooks(s, s', m, bytes);
  }

  lemma ReleaseWeights(s: State, t: nat, m: nat, b: nat, bytes: bool)
    requires m in s.chunks && s.chunks[m].stage == Busy(t, Release(b)) && b in s.mem.blocks
    ensures SameWeights(s, DoRelease(s, t, m, b), m, bytes)
  {
    hide Unmap;
  }

  lemma RestWeights(s: State, t: nat, m: nat, bytes: bool)
    requires m in s.chunks && s.chunks[m].stage.Busy?
    ensures s.chunks[m].stage.step.Publish? ==> SameWeights(s, DoPublish(s, t, m), m, bytes)
    ensures s.chunks[m].stage.step.Put? ==> SameWeights(s, DoPut(s, t, m), m, bytes)
  {
    hide SetState;
  }

  lemma MallocBooks(s: State, e: Event, bytes: bool)
    requires Inv(s) && Balanced(s, bytes) && e.Malloc? && MallocEnabled(s, e)
    ensures Balanced(DoMalloc(s, e), bytes)
  {
    hide Inv, Balanced, Dirty, AllocateChecks, MakePlan, Placed, NewHeader, UserBeg;
    MallocPlaces(s, e);
    InsideOwn(s.mem.blocks, NewAddr(s, e), NewChunk(s, e));
    FreeBlockQuiet(s, e.b, NewAddr(s, e));
    SameBooks(s, DoMalloc(s, e), NewAddr(s, e), bytes);
  }

  lemma FreeBooks(s: State, t: nat, p: nat, bytes: bool)
    requires Inv(s) && Balanced(s, bytes)
    ensures Balanced(DoFree(s, t, p), bytes)
  {
    hide Inv, Balanced, SetState, Load;
    if p >= HEADER && Load(s.mem, p - HEADER).state == ALLOCATED {
      AllocatedIsLive(s, p - HEADER);
      SameBooks(s, DoFree(s, t, p), p - HEADER, bytes);
    }
  }

  lemma EventBooks(s: State, e: Event, bytes: bool)
    requires Inv(s) && Balanced(s, bytes) && Enabled(s, e)
    ensures Balanced(Apply(s, e), bytes)
  {
    hide Inv, Balanced, DoMalloc, DoMove, DoFree, MallocEnabled, MoveEnabled, DoVisit, MapBlock;
    match e
    case Malloc(_, _, _, _, _, _, _) => MallocBooks(s, e, bytes);
    case Move(t) => MoveBooks(s, t, bytes);
    case Free(t, p) => FreeBooks(s, t, p, bytes);
    case Dequeue(t, m) =>
      QueuedIsChunk(s, m);
      SameBooks(s, DoDequeue(s, t, m), m, bytes);
    case Map(b, _) => SameBooks(s, Apply(s, e), b, bytes);
    case SetRedzones(_, _) => SameBooks(s, Apply(s, e), 0, bytes);
    case Deactivate => SameBooks(s, Apply(s, e), 0, bytes);
    case Activate => SameBooks(s, Apply(s, e), 0, bytes);
    case Visit(_) => SameBooks(s, Apply(s, e), 0, bytes);
  }

  // --------------------------------------------------------------------- runs

  ghost predicate FullInv(s: State) {
    && Inv(s) && MetaInv(s) && ShadowInv(s) && ShadowBytes(s.mem.shadow)
    && LogInv(s) && Balanced(s, true) && Balanced(s, false)
  }

  lemma EventFull(s: State, e: Event)
    requires FullInv(s) && Enabled(s, e)
    ensures FullInv(Apply(s, e))
  {
    hide Inv, MetaInv, ShadowInv, ShadowBytes, LogInv, Balanced, Enabled, Apply;
    EventKeeps(s, e);
    EventMeta(s, e);
    EventShadow(s, e);
    EventBytes(s, e);
    EventLogs(s, e);
    EventBooks(s, e, true);
    EventBooks(s, e, false);
  }

  lemma {:induction false} RunFull(s: State, es: seq<Event>)
    requires FullInv(s) && CanRun(s, es)
    ensures FullInv(Exec(s, es))
    decreases |es|
  {
    hide FullInv, Enabled, Apply;
    if es != [] {
      EventFull(s, es[0]);
      RunFull(Apply(s, es[0]), es[1..]);
    }
  }

  lemma Reached(s: State, es: seq<Event>)
    requires Initial(s) && CanRun(s, es)
    ensures FullInv(Exec(s, es))
  {
    hide Inv, ShadowInv, CanRun, Exec;
    InitialShadow(s);
    RunFull(s, es);
  }
}
