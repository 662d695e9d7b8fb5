/** What holds in every state that any run of the heap reaches, said in terms
    of what memory holds. */
module HeapSafety {
  import opened Wrappers
  import opened Pow2Math
  import opened ChunkLayout
  import opened Shadow
  import opened HeapMemory
  import opened HeapMachine
  import opened HeapMetadata
  import opened HeapShadow
  import opened HeapAccounts
  import opened Sums

  // ------------------------------------------------------------ racing frees

  /** A block of the secondary allocator whose metadata is not written yet, or
      whose chunk header is not at its very start. */
  predicate OffStart(mem: Mem, b: nat) {
    b in mem.blocks && !mem.blocks[b].primary && (b !in mem.meta || mem.meta[b].1 != b)
  }

  /** Some visit of the run meets such a block. */
  ghost predicate SweepsOffStart(s: State, es: seq<Event>)
    requires CanRun(s, es)
    decreases |es|
  {
    && es != []
    && ((es[0].Visit? && OffStart(s.mem, es[0].b)) || SweepsOffStart(Apply(s, es[0]), es[1..]))
  }

  /** In terms of chunks: the block is off its start while its chunk is being
      filled, or when its chunk's header is elsewhere. */
  lemma StopsAtOffStart(s: State, b: nat)
    requires Inv(s) && MetaInv(s) && Visitable(s, b)
    ensures SizeQueryOk(s.mem, b) <==> !OffStart(s.mem, b)
    ensures b in s.occ ==> s.occ[b] in s.chunks
    ensures !s.mem.blocks[b].primary ==> (OffStart(s.mem, b) <==> s.occ[b] != b || Filling(s.chunks[s.occ[b]].stage))
  {
    hide Inv, MetaInv, HeaderFor;
    MetaHere(s, b);
    if b in s.occ { OccIsChunk(s, b); }
    if !s.mem.blocks[b].primary {
      RedzoneBelowPage(s.occ[b], s.chunks[s.occ[b]]);
    }
  }

  lemma {:induction false} RunFails(s: State, es: seq<Event>)
    requires Inv(s) && MetaInv(s) && !s.failed && CanRun(s, es)
    ensures Exec(s, es).failed <==> SweepsOffStart(s, es)
    decreases |es|
  {
    hide Inv, MetaInv, Apply, OffStart, SizeQueryOk, Visitable;
    if es != [] {
      var s1 := Apply(s, es[0]);
      EventFails(s, es[0]);
      if es[0].Visit? { StopsAtOffStart(s, es[0].b); }
      if s1.failed {
        StoppedStays(s1, es[1..]);
      } else {
        EventKeeps(s, es[0]);
        EventMeta(s, es[0]);
        RunFails(s1, es[1..]);
      }
    }
  }

  lemma StoppedStays(s: State, es: seq<Event>)
    requires s.failed && CanRun(s, es)
    ensures es == [] && Exec(s, es) == s
  {
  }

  /** Over every interleaving of any number of threads, switches and sweeps the
      process stops exactly when a visit meets a secondary block whose metadata
      is not written or whose header is off its start; no other CHECK ever fails. */
  lemma FailsExactlyInSweep(s: State, es: seq<Event>)
    requires Initial(s) && CanRun(s, es)
    ensures Exec(s, es).failed <==> SweepsOffStart(s, es)
  {
    hide CanRun, Exec, SweepsOffStart;
    InitialInv(s);
    RunFails(s, es);
  }

  /** Without a sweep no CHECK fails, whatever threads free what and when. */
  lemma {:induction false} NoCheckFails(s: State, es: seq<Event>)
    requires Inv(s) && !s.failed && CanRun(s, es) && forall i :: 0 <= i < |es| ==> !es[i].Visit?
    ensures !Exec(s, es).failed
    decreases |es|
  {
    hide Inv, Apply, Enabled;
    if es != [] {
      assert !es[0].Visit?;
      EventFails(s, es[0]);
      EventKeeps(s, es[0]);
      NoCheckFails(Apply(s, es[0]), es[1..]);
    }
  }

  /** Each allocation is quarantined at most once and recycled at most once,
      and only after it was quarantined; once its chunk is gone, each happened. */
  lemma QuarantinedAndRecycledOnce(s: State, es: seq<Event>, id: nat)
    requires Initial(s) && CanRun(s, es)
    ensures var f := Exec(s, es);
      && f.recycled[id] <= f.puts[id] <= 1
      && (id < |f.log| && !Standing(f, id) ==> f.puts[id] == 1 && f.recycled[id] == 1)
      && (id >= |f.log| ==> f.puts[id] == 0)
  {
    hide CanRun, Exec;
    Reached(s, es);
    assert Counted(Exec(s, es), id);
  }

  /** At m memory holds all that Allocate recorded in the log, in state ALLOCATED. */
  predicate HoldsRecord(f: State, m: nat) {
    && m in f.chunks && f.chunks[m].id < |f.log|
    && f.log[f.chunks[m].id].e.Malloc? && Records(Load(f.mem, m), f.log[f.chunks[m].id].e)
    && Load(f.mem, m).state == ALLOCATED && Load(f.mem, m).freeTid == INVALID_TID
    && UsedSize(f.mem, m) == Max(f.log[f.chunks[m].id].e.request, 1)
  }

  lemma LiveHoldsRecord(f: State, m: nat)
    requires Inv(f) && LogInv(f) && m in f.chunks && f.chunks[m].stage == Live
    ensures HoldsRecord(f, m)
  {
    hide Inv, Load, UsedSize, AllocBeg, ChunkOf, Counted;
    HoldsChunk(f, m);
    assert Logged(f, m);
    LoadStored(f.mem, m, f.chunks[m]);
    MetadataRoundTrip(f.mem, m, f.chunks[m]);
  }

  /** A free that wins the race finds the chunk of a logged allocation, with
      every field Allocate wrote; a free that does not win changes nothing. */
  lemma WinnerSeesMetadata(s: State, es: seq<Event>, t: nat, p: nat)
    requires Initial(s) && CanRun(s, es) && PcOf(Exec(s, es), t) == Idle && t < INVALID_TID
    ensures var f := Exec(s, es); DoFree(f, t, p) != f ==> p >= HEADER && HoldsRecord(f, p - HEADER)
  {
    hide CanRun, Exec, DoFree, HoldsRecord, Inv, ShadowInv, LogInv, Balanced, Load, Expect;
    var f := Exec(s, es);
    Reached(s, es);
    FreeKeeps(f, t, p);
    if DoFree(f, t, p) != f { LiveHoldsRecord(f, p - HEADER); }
  }

  /** While thread t holds a chunk no other thread does. */
  lemma OneOwner(s: State, es: seq<Event>, t: nat, u: nat)
    requires Initial(s) && CanRun(s, es) && t != u
    ensures var f := Exec(s, es); PcOf(f, t).At? && PcOf(f, u).At? ==> PcOf(f, t).m != PcOf(f, u).m
  {
    hide CanRun, Exec, MetaInv, ShadowInv, Balanced;
    var f := Exec(s, es);
    Reached(s, es);
    if PcOf(f, t).At? && PcOf(f, u).At? {
      AtOwn(f, t);
      AtOwn(f, u);
    }
  }

  // ------------------------------------------------------ metadata round trip

  /** For every chunk in use or in quarantine, under whatever redzone options
      came later: the block leads to the chunk, the chunk to the block, and the
      size is the one requested, or 1 for a request of 0. */
  lemma MetadataSurvives(s: State, es: seq<Event>, m: nat)
    requires Initial(s) && CanRun(s, es) && m in Exec(s, es).chunks && Written(Exec(s, es).chunks[m].stage)
    ensures var f := Exec(s, es); var id := f.chunks[m].id;
      && id < |f.log| && f.log[id].m == m && f.log[id].e.Malloc? && f.log[id].e.b in f.mem.blocks
      && ChunkOf(f.mem, f.log[id].e.b) == m
      && AllocBeg(f.mem, m) == f.log[id].e.b
      && UsedSize(f.mem, m) == Max(f.log[id].e.request, 1)
      && Records(Load(f.mem, m), f.log[id].e)
  {
    hide CanRun, Exec, Load, UsedSize, AllocBeg, ChunkOf, ShadowInv, Balanced;
    var f := Exec(s, es);
    Reached(s, es);
    HoldsChunk(f, m);
    assert Logged(f, m);
    LoadStored(f.mem, m, f.chunks[m]);
    MetadataRoundTrip(f.mem, m, f.chunks[m]);
  }

  // ----------------------------------------------------------- addressability

  /** Byte a of block b belongs to a chunk that memory says is allocated. */
  predicate InAllocated(mem: Mem, b: nat, a: nat)
    requires b in mem.blocks
  {
    var m := ChunkOf(mem, b);
    && Load(mem, m).state == ALLOCATED
    && m + HEADER <= a < m + HEADER + if mem.partial then UsedSize(mem, m) else RoundUp(UsedSize(mem, m), GRANULE)
  }

  /** Byte a is in user memory of the chunk in block b, and the chunk is between
      being filled and being closed. */
  predicate InOpenChunk(s: State, b: nat, a: nat) {
    && b in s.occ && s.occ[b] in s.chunks && UserOpen(s.chunks[s.occ[b]].stage)
    && UserByte(s.mem.partial, s.occ[b], s.chunks[s.occ[b]].size, a)
  }

  predicate UserByte(partial: bool, m: nat, size: nat, a: nat) {
    m + HEADER <= a < m + HEADER + if partial then size else RoundUp(size, GRANULE)
  }

  lemma OwnsByte(blocks: map<nat, Block>, granules: nat, b: nat, a: nat)
    requires GoodBlocks(blocks, granules) && Inside(blocks, b, a)
    ensures Owns(blocks, b, a / GRANULE) && a / GRANULE < granules
  {
    hide Apart;
    assert BlockOk(b, blocks[b], granules);
    GranuleInside(b, blocks[b].size, a);
  }

  lemma GranuleInside(b: nat, size: nat, a: nat)
    requires b % 16 == 0 && size % 16 == 0 && b <= a < b + size
    ensures b / GRANULE <= a / GRANULE < (b + size) / GRANULE
  {
    DivMono(b, a, GRANULE);
    AddMultiple(b, size, 16);
    ModDivides(b + size, 16, GRANULE);
    DivBelow(a, (b + size) / GRANULE, GRANULE);
  }

  lemma OpenBytes(m: nat, size: nat, partial: bool, a: nat)
    requires m % 16 == 0
    ensures var v := OpenByte(m, size, partial, a / GRANULE);
      (v == 0 || (v < 128 && a % GRANULE < v)) <==> UserByte(partial, m, size, a)
  {
  }

  /** The chunk in block b was caught open by a visit. */
  predicate Caught(s: State, b: nat) { b in s.occ && s.occ[b] in s.caught }

  /** The granule after the whole granules of user memory. */
  function TailGranule(s: State, b: nat): nat
    requires b in s.occ && s.occ[b] in s.chunks
  {
    UserGranule(s.occ[b]) + s.chunks[s.occ[b]].size / GRANULE
  }

  /** A byte of a sound block is addressable exactly when it is user memory of an
      open chunk; of a caught chunk at most the last granule is. */
  lemma AddressableByStage(s: State, b: nat, a: nat)
    requires Inv(s) && ShadowInv(s) && Inside(s.mem.blocks, b, a) && b in s.sound
    ensures a / GRANULE < |s.mem.shadow| && (b in s.occ ==> s.occ[b] in s.chunks)
    ensures !Caught(s, b) ==> (Addressable(s.mem.shadow, a) <==> InOpenChunk(s, b, a))
    ensures Caught(s, b) ==> UserOpen(s.chunks[s.occ[b]].stage)
    ensures Caught(s, b) && Addressable(s.mem.shadow, a) ==>
      InOpenChunk(s, b, a) && s.chunks[s.occ[b]].size >= GRANULE && a / GRANULE == TailGranule(s, b)
  {
    hide Inv, GoodBlocks, OpenByte, UserByte, PartialByte, Placed;
    BlocksGood(s);
    OwnsByte(s.mem.blocks, |s.mem.shadow|, b, a);
    assert BlockShadow(s, b);
    if b in s.occ {
      var m := s.occ[b];
      OccIsChunk(s, b);
      InsideAligned(s.mem.blocks, m, s.chunks[m]);
      OpenBytes(m, s.chunks[m].size, s.mem.partial, a);
    }
  }

  /** At every step of every run, half-done operations, switches and sweeps under
      way included. */
  lemma AddressableAtEveryStep(s: State, es: seq<Event>, b: nat, a: nat)
    requires Initial(s) && CanRun(s, es)
    requires var f := Exec(s, es); Inside(f.mem.blocks, b, a) && b in f.sound
    ensures var f := Exec(s, es);
      && a / GRANULE < |f.mem.shadow| && (b in f.occ ==> f.occ[b] in f.chunks)
      && (!Caught(f, b) ==> (Addressable(f.mem.shadow, a) <==> InOpenChunk(f, b, a)))
      && (Caught(f, b) && Addressable(f.mem.shadow, a) ==> InOpenChunk(f, b, a) && a / GRANULE == TailGranule(f, b))
  {
    hide CanRun, Exec, Inv, MetaInv, ShadowInv, LogInv, Balanced, Addressable, InOpenChunk;
    Reached(s, es);
    AddressableByStage(Exec(s, es), b, a);
  }

  lemma InsideAligned(blocks: map<nat, Block>, m: nat, c: Chunk)
    requires Placed(blocks, m, c)
    ensures m % 16 == 0
  {
  }

  /** No thread is working on the block: it is free, or its chunk is live or in
      the quarantine. A secondary block exists only while it is handed out. */
  predicate AtRest(s: State, b: nat) {
    && b in s.mem.blocks
    && if b in s.occ then s.occ[b] in s.chunks && !s.chunks[s.occ[b]].stage.Busy? else s.mem.blocks[b].primary
  }

  /** In block b shadow lets through exactly the bytes that memory says are allocated. */
  ghost predicate Exact(mem: Mem, b: nat)
    requires b in mem.blocks
  {
    forall a: nat :: Inside(mem.blocks, b, a) ==>
      a / GRANULE < |mem.shadow| && (Addressable(mem.shadow, a) <==> InAllocated(mem, b, a))
  }

  lemma RestIsExact(f: State, b: nat, a: nat)
    requires Inv(f) && ShadowInv(f) && Inside(f.mem.blocks, b, a) && b in f.sound && AtRest(f, b) && !Caught(f, b)
    ensures a / GRANULE < |f.mem.shadow| && (Addressable(f.mem.shadow, a) <==> InAllocated(f.mem, b, a))
  {
    hide Load, UsedSize, AllocBeg, ChunkOf, ShadowInv, Addressable, RoundUp, Inv;
    AddressableByStage(f, b, a);
    if b in f.occ {
      OccIsChunk(f, b);
      LiveIffAllocated(f, f.occ[b]);
    } else {
      FreeNotAllocated(f, b);
    }
  }

  /** The first byte of a caught chunk is allocated, and denied. */
  lemma CaughtIsDenied(f: State, b: nat)
    requires Inv(f) && ShadowInv(f) && b in f.sound && AtRest(f, b) && Caught(f, b)
    ensures var a := f.occ[b] + HEADER;
      && Inside(f.mem.blocks, b, a) && InAllocated(f.mem, b, a)
      && a / GRANULE < |f.mem.shadow| && !Addressable(f.mem.shadow, a)
  {
    hide Load, UsedSize, AllocBeg, ChunkOf, ShadowInv, Addressable, Inv, HeaderFor, StepFor;
    OccIsChunk(f, b);
    var m := f.occ[b];
    FitsEnd(b, f.mem.blocks[b].size, m, f.chunks[m].size);
    AddressableByStage(f, b, m + HEADER);
    LiveIffAllocated(f, m);
  }

  /** The central promise, in any state of any run, whatever was switched and
      swept when, for every sound block that no thread is working on: shadow is
      exact if and only if no visit caught the block's chunk open. */
  lemma AddressableIffAllocated(s: State, es: seq<Event>, b: nat)
    requires Initial(s) && CanRun(s, es)
    requires var f := Exec(s, es); b in f.sound && AtRest(f, b)
    ensures var f := Exec(s, es); Exact(f.mem, b) <==> !Caught(f, b)
  {
    hide CanRun, Exec, AtRest, InAllocated, MetaInv, ShadowInv, Balanced, LogInv, Addressable, Inv, Caught;
    var f := Exec(s, es);
    Reached(s, es);
    if Caught(f, b) {
      CaughtIsDenied(f, b);
    } else {
      forall a: nat | Inside(f.mem.blocks, b, a)
        ensures a / GRANULE < |f.mem.shadow| && (Addressable(f.mem.shadow, a) <==> InAllocated(f.mem, b, a))
      {
        RestIsExact(f, b, a);
      }
    }
  }

  /** Poisoning is not switched off during the run. */
  predicate NeverOff(es: seq<Event>) { forall i :: 0 <= i < |es| ==> !es[i].Deactivate? }

  /** A sweep whose visits come in any order, with repetitions and any steps of
      other threads in between, puts right every block it visits; while poisoning
      stays on nothing else goes wrong. */
  lemma {:induction false} SweepWorks(s: State, es: seq<Event>)
    requires FullInv(s) && s.mem.canPoison && CanRun(s, es) && NeverOff(es)
    ensures var f := Exec(s, es);
      && f.mem.canPoison && Unsound(f) <= Unsound(s) && Pending(f) <= Pending(s)
      && (!f.failed ==> forall i :: 0 <= i < |es| && es[i].Visit? ==> es[i].b !in Unsound(f) && es[i].b !in Pending(f))
    decreases |es|
  {
    hide Inv, MetaInv, ShadowInv, ShadowBytes, LogInv, Balanced, Enabled, Apply, Unsound, Pending;
    if es != [] {
      var s1 := Apply(s, es[0]);
      StaysOn(s, es[0]);
      EventSound(s, es[0]);
      EventFull(s, es[0]);
      SweepWorks(s1, es[1..]);
      if s1.failed { StoppedStays(s1, es[1..]); }
      forall i | 0 <= i < |es| && es[i].Visit? && !Exec(s, es).failed
        ensures es[i].b !in Unsound(Exec(s, es)) && es[i].b !in Pending(Exec(s, es))
      {
        if i > 0 { assert es[i] == es[1..][i - 1]; }
      }
    }
  }

  /** If poisoning was on from the start and never off, every block is sound. */
  lemma SoundIfNeverOff(s: State, es: seq<Event>)
    requires Initial(s) && s.mem.canPoison && CanRun(s, es) && NeverOff(es)
    ensures forall b :: b in Exec(s, es).mem.blocks ==> b in Exec(s, es).sound
  {
    hide CanRun, Exec, Inv, MetaInv, ShadowInv, ShadowBytes, LogInv, Balanced, NeverOff;
    Nothing(s);
    Reached(s, []);
    SweepWorks(s, es);
    var f := Exec(s, es);
    forall b | b in f.mem.blocks ensures b in f.sound { assert b !in Unsound(f); }
  }

  lemma Nothing(s: State)
    ensures CanRun(s, []) && Exec(s, []) == s
  {
  }

  /** Whatever happened before and whatever other threads do meanwhile: once
      poisoning is on, a sweep that visits every block handed out whose shadow
      may be wrong leaves every block handed out sound. */
  lemma SoundAfterSweep(s: State, es: seq<Event>, fs: seq<Event>)
    requires Initial(s) && CanRun(s, es) && CanRun(Exec(s, es), fs) && NeverOff(fs)
    requires Exec(s, es).mem.canPoison && forall b :: b in Pending(Exec(s, es)) ==> Event.Visit(b) in fs
    ensures var f := Exec(Exec(s, es), fs); !f.failed ==> f.used <= f.sound
  {
    hide CanRun, Exec, Inv, MetaInv, ShadowInv, ShadowBytes, LogInv, Balanced, NeverOff;
    var g, f := Exec(s, es), Exec(Exec(s, es), fs);
    Reached(s, es);
    SweepWorks(g, fs);
    if !f.failed {
      forall b | b in Pending(g) ensures b !in Pending(f) {
        var i :| 0 <= i < |fs| && fs[i] == Event.Visit(b);
      }
      forall b | b in f.used ensures b in f.sound { assert b !in Pending(f); }
    }
  }

  lemma LiveIffAllocated(s: State, m: nat)
    requires Inv(s) && m in s.chunks && Written(s.chunks[m].stage)
    ensures s.chunks[m].b in s.mem.blocks && ChunkOf(s.mem, s.chunks[m].b) == m
    ensures UsedSize(s.mem, m) == s.chunks[m].size
    ensures Load(s.mem, m).state == StateOf(s.chunks[m].stage)
  {
    hide Load, UsedSize, AllocBeg, ChunkOf, Inv;
    HoldsChunk(s, m);
    LoadStored(s.mem, m, s.chunks[m]);
    MetadataRoundTrip(s.mem, m, s.chunks[m]);
  }

  lemma FreeNotAllocated(s: State, b: nat)
    requires Inv(s) && b in s.mem.blocks && b !in s.occ && s.mem.blocks[b].primary
    ensures Load(s.mem, ChunkOf(s.mem, b)).state == AVAILABLE
  {
    hide Inv, Load, BlockOk;
    BlocksGood(s);
    InsideStart(s.mem.blocks, |s.mem.shadow|, b);
    FreeBlockQuiet(s, b, b);
    LoadState(s.mem, b);
    assert ALLOC_BEG_MAGIC % 0x100 == 0xB9;
  }

  /** While poisoning is off, Allocate clears whole granules only: all of the
      user memory ends up addressable exactly when there is no tail, or the tail
      granule already let it through. */
  lemma ClearedWhileOff(sh: seq<nat>, partial: bool, user: nat, size: nat)
    requires user % GRANULE == 0 && size > 0 && (user + size + 7) / GRANULE <= |sh|
    ensures var r := Unpoison(sh, false, partial, user, size);
      (forall a :: user <= a < user + size ==> Addressable(r, a))
      <==> (size % GRANULE == 0 || TailOpen(sh[(user + size) / GRANULE], size % GRANULE))
  {
    hide Addressable;
    var r := Unpoison(sh, false, partial, user, size);
    var tail := (user + size) / GRANULE;
    AddMultiple(user, size, GRANULE);
    AddMultiple(user, size - size % GRANULE, GRANULE);
    if size % GRANULE == 0 || TailOpen(sh[tail], size % GRANULE) {
      forall a | user <= a < user + size ensures Addressable(r, a) {
        UserOffset(user, size, a);
        AddressableBy(r, a, size % GRANULE);
      }
    } else {
      UserOffset(user, size, user + size - 1);
      AddressableBy(r, user + size - 1, size % GRANULE);
    }
  }

  /** Byte a of user memory: its granule, counted from the last one. */
  lemma UserOffset(user: nat, size: nat, a: nat)
    requires user % GRANULE == 0 && user <= a < user + size
    ensures user / GRANULE <= a / GRANULE <= user / GRANULE + size / GRANULE
    ensures a / GRANULE == user / GRANULE + size / GRANULE ==> a % GRANULE < size % GRANULE
    ensures a == user + size - 1 && size % GRANULE != 0 ==>
      a / GRANULE == user / GRANULE + size / GRANULE && a % GRANULE == size % GRANULE - 1
  {
    AddMultiple(user, a - user, GRANULE);
  }

  lemma AddressableBy(sh: seq<nat>, a: nat, n: nat)
    requires a / GRANULE < |sh|
    ensures sh[a / GRANULE] == 0 || (a % GRANULE < n && TailOpen(sh[a / GRANULE], n)) ==> Addressable(sh, a)
    ensures a % GRANULE == n - 1 && !TailOpen(sh[a / GRANULE], n) ==> !Addressable(sh, a)
  {
  }

  predicate TailOpen(v: nat, n: nat) { v == 0 || (v < 128 && n <= v) }

  // ------------------------------------------------------------ header pages

  /** While block b is mapped it is x, mapped while poisoning was on. */
  predicate LinedAs(s: State, b: nat, x: Block) { b in s.mem.blocks ==> s.mem.blocks[b] == x && b in s.lined }

  /** Unless block b is mapped again it stays what it is while it is mapped. */
  lemma EventLined(s: State, e: Event, b: nat, x: Block)
    requires Enabled(s, e) && LinedAs(s, b, x) && !(e.Map? && e.b == b)
    ensures LinedAs(Apply(s, e), b, x)
  {
    hide MoveEnabled, PoisonWhole, RePoison, SizeQueryOk, Load, SetState, NewAddr, NewChunk;
    hide AllocateChecks, PlanFor, Dirty, ComesClear, DoMove;
    if e.Malloc? { DirtyKeepsMeta(s.mem, e.b); }
    if e.Move? { MoveLined(s, e.t, b, x); }
  }

  lemma MoveLined(s: State, t: nat, b: nat, x: Block)
    requires MoveEnabled(s, t) && LinedAs(s, b, x)
    ensures LinedAs(DoMove(s, t), b, x)
  {
    hide UsedSize, AllocBeg, QuarantineChecks, RecycleChecks, FillChunk, SetState, QuarantineChunk;
    hide RecycleChunk, StatsOf, Moved, SoundAfter, LinedAs, DoRelease;
    match PcOf(s, t)
    case At(m, Release(c)) => ReleaseLined(s, t, m, c, b, x);
    case At(_, _) => SameLined(s, DoMove(s, t), b, x);
  }

  lemma SameLined(s: State, s': State, b: nat, x: Block)
    requires LinedAs(s, b, x) && s'.mem.blocks == s.mem.blocks && s'.lined == s.lined
    ensures LinedAs(s', b, x)
  {
  }

  lemma ReleaseLined(s: State, t: nat, m: nat, c: nat, b: nat, x: Block)
    requires c in s.mem.blocks && LinedAs(s, b, x)
    ensures LinedAs(DoRelease(s, t, m, c), b, x)
  {
    hide PoisonWhole;
  }

  lemma {:induction false} RunLined(s: State, es: seq<Event>, b: nat, x: Block)
    requires CanRun(s, es) && LinedAs(s, b, x)
    requires forall i :: 0 <= i < |es| ==> !(es[i].Map? && es[i].b == b)
    ensures LinedAs(Exec(s, es), b, x)
    decreases |es|
  {
    hide Enabled, Apply, LinedAs;
    if es != [] {
      assert !(es[0].Map? && es[0].b == b);
      EventLined(s, es[0], b, x);
      RunLined(Apply(s, es[0]), es[1..], b, x);
    }
  }

  /** Every byte of the header page of a lined block is poisoned. */
  lemma PageIsRedzone(s: State, b: nat, a: nat)
    requires Inv(s) && ShadowInv(s) && b in s.mem.blocks && !s.mem.blocks[b].primary && b in s.lined
    requires b - PAGE <= a < b
    ensures a / GRANULE < |s.mem.shadow| && s.mem.shadow[a / GRANULE] == HEAP_LEFT_REDZONE
  {
    hide Inv, BlockShadow;
    BlocksGood(s);
    assert BlockOk(b, s.mem.blocks[b], |s.mem.shadow|);
    PageGranule(b, s.mem.blocks[b].size, a);
    assert PageShadow(s, b);
    assert InPage(s.mem.blocks, b, a / GRANULE);
  }

  lemma PageGranule(b: nat, size: nat, a: nat)
    requires b % PAGE == 0 && b > PAGE && b - PAGE <= a < b
    ensures (b - PAGE) / GRANULE <= a / GRANULE < b / GRANULE <= (b + size) / GRANULE
  {
    ModDivides(b, PAGE, GRANULE);
    DivMono(b - PAGE, a, GRANULE);
    DivBelow(a, b / GRANULE, GRANULE);
    DivMono(b, b + size, GRANULE);
  }

  // ------------------------------------------------------------- conservation

  /** Bytes (or number) that chunk m adds if memory says it is in a state. */
  function InState(mem: Mem, state: nat, bytes: bool, m: nat): nat {
    if Load(mem, m).state != state then 0 else if bytes then UsedSize(mem, m) else 1
  }

  /** What memory says the chunks in one state hold together. */
  ghost function Held(f: State, state: nat, bytes: bool): nat {
    Sum(f.chunks.Keys, m => InState(f.mem, state, bytes, m))
  }

  /** Counted as malloced and not yet marked ALLOCATED. */
  predicate Unpublished(stage: Stage) { stage.Busy? && stage.step.Publish? }

  /** Marked QUARANTINE and not yet counted as freed. */
  predicate Uncounted(stage: Stage) { stage.Busy? && stage.step.Quarantine? }

  /** What chunk m adds if an operation on it has counted and not marked it, or
      marked and not counted it. */
  function HalfDone(f: State, publish: bool, bytes: bool, m: nat): nat {
    if m in f.chunks && (Uncounted(f.chunks[m].stage) || (publish && Unpublished(f.chunks[m].stage)))
    then Weight(f.chunks[m], bytes) else 0
  }

  ghost function TotalHalfDone(f: State, publish: bool, bytes: bool): nat {
    Sum(f.chunks.Keys, m => HalfDone(f, publish, bytes, m))
  }

  /** In every state of every run, summed over all threads, in bytes and in
      operations: what was malloced and not freed is what ALLOCATED chunks hold
      and what is between the count and the mark; what was freed and not really
      freed is what QUARANTINE chunks hold, less what is between the mark and the
      count. The half-done terms vanish exactly when no chunk is in between. */
  lemma Conservation(s: State, es: seq<Event>, bytes: bool)
    requires Initial(s) && CanRun(s, es)
    ensures var f := Exec(s, es);
      && TotalMalloced(f, bytes) - TotalFreed(f, bytes) == Held(f, ALLOCATED, bytes) + TotalHalfDone(f, true, bytes)
      && TotalFreed(f, bytes) - TotalReallyFreed(f, bytes)
         == Held(f, QUARANTINE, bytes) - TotalHalfDone(f, false, bytes)
      && (TotalMalloced(f, bytes) - TotalFreed(f, bytes) == Held(f, ALLOCATED, bytes) <==>
          forall m :: m in f.chunks ==> !Unpublished(f.chunks[m].stage) && !Uncounted(f.chunks[m].stage))
      && (TotalFreed(f, bytes) - TotalReallyFreed(f, bytes) == Held(f, QUARANTINE, bytes) <==>
          forall m :: m in f.chunks ==> !Uncounted(f.chunks[m].stage))
  {
    hide CanRun, Exec, Inv, MetaInv, ShadowInv, LogInv, TotalMalloced, TotalFreed, TotalReallyFreed, TotalOpen;
    hide TotalClosed, Held, TotalHalfDone;
    var f := Exec(s, es);
    Reached(s, es);
    assert Balanced(f, bytes);
    StateTotals(f, bytes);
    HalfDoneIff(f, true, bytes);
    HalfDoneIff(f, false, bytes);
  }

  /** With no operation half done the books match memory. */
  lemma IdleConservation(s: State, es: seq<Event>, bytes: bool)
    requires Initial(s) && CanRun(s, es) && AllIdle(Exec(s, es))
    ensures var f := Exec(s, es);
      && TotalMalloced(f, bytes) - TotalFreed(f, bytes) == Held(f, ALLOCATED, bytes)
      && TotalFreed(f, bytes) - TotalReallyFreed(f, bytes) == Held(f, QUARANTINE, bytes)
  {
    hide CanRun, Exec, Inv, MetaInv, ShadowInv, LogInv, Balanced, TotalMalloced, TotalFreed, TotalReallyFreed, Held;
    hide TotalHalfDone, AllIdle;
    var f := Exec(s, es);
    Reached(s, es);
    Conservation(s, es, bytes);
    forall m | m in f.chunks ensures !Unpublished(f.chunks[m].stage) && !Uncounted(f.chunks[m].stage) {
      IdleStages(f, m);
    }
  }

  lemma StateTotals(f: State, bytes: bool)
    requires Inv(f)
    ensures TotalOpen(f, bytes) == Held(f, ALLOCATED, bytes) + TotalHalfDone(f, true, bytes)
    ensures TotalClosed(f, bytes) + TotalHalfDone(f, false, bytes) == Held(f, QUARANTINE, bytes)
  {
    hide Inv, InState, OpenWeight, ClosedWeight, HalfDone;
    forall m | m in f.chunks
      ensures OpenWeight(f, bytes, m) == InState(f.mem, ALLOCATED, bytes, m) + HalfDone(f, true, bytes, m)
      ensures InState(f.mem, QUARANTINE, bytes, m) == ClosedWeight(f, bytes, m) + HalfDone(f, false, bytes, m)
    {
      StateWeights(f, m, bytes);
    }
    var keys := f.chunks.Keys;
    SumOfTwo(keys, m => OpenWeight(f, bytes, m), m => InState(f.mem, ALLOCATED, bytes, m),
             m => HalfDone(f, true, bytes, m));
    SumOfTwo(keys, m => InState(f.mem, QUARANTINE, bytes, m), m => ClosedWeight(f, bytes, m),
             m => HalfDone(f, false, bytes, m));
  }

  lemma StateWeights(f: State, m: nat, bytes: bool)
    requires Inv(f) && m in f.chunks
    ensures OpenWeight(f, bytes, m) == InState(f.mem, ALLOCATED, bytes, m) + HalfDone(f, true, bytes, m)
    ensures InState(f.mem, QUARANTINE, bytes, m) == ClosedWeight(f, bytes, m) + HalfDone(f, false, bytes, m)
  {
    hide Inv, Load, ChunkOf, UsedSize;
    if Written(f.chunks[m].stage) {
      LiveIffAllocated(f, m);
    } else {
      ChunkInside(f, m);
      QuietInside(f, m, m);
      LoadState(f.mem, m);
    }
  }

  lemma HalfDoneIff(f: State, publish: bool, bytes: bool)
    requires Inv(f)
    ensures TotalHalfDone(f, publish, bytes) == 0 <==>
      forall m :: m in f.chunks ==> !Uncounted(f.chunks[m].stage) && (publish ==> !Unpublished(f.chunks[m].stage))
  {
    hide Inv;
    forall m | m in f.chunks
      ensures HalfDone(f, publish, bytes, m) == 0 <==>
        !Uncounted(f.chunks[m].stage) && (publish ==> !Unpublished(f.chunks[m].stage))
    {
      SizePositive(f, m);
    }
    SumZero(f.chunks.Keys, m => HalfDone(f, publish, bytes, m));
  }

  lemma SizePositive(s: State, m: nat)
    requires Inv(s) && m in s.chunks
    ensures s.chunks[m].size >= 1
  {
    hide Inv, Stored, HeaderFor, StepFor, RoundUp;
    HoldsChunk(s, m);
  }

  // ------------------------------------------------------------ sweep aborts

  /** The sweep's size query on a secondary block succeeds exactly when the
      chunk header sits at the very start of the block: smallest redzone, and
      no alignment that moved user memory up. */
  lemma SweepQueryExact(s: State, m: nat)
    requires Inv(s) && m in s.chunks && Written(s.chunks[m].stage)
    requires s.chunks[m].b in s.mem.blocks && !s.mem.blocks[s.chunks[m].b].primary
    ensures SizeQueryOk(s.mem, s.chunks[m].b) <==> Load(s.mem, m).rzLog == 0 && !Load(s.mem, m).fromMemalign
    ensures SizeQueryOk(s.mem, s.chunks[m].b) <==> m == s.chunks[m].b
  {
    hide Inv, Load, ChunkOf, UsedSize, AllocBeg, FieldsFit, StepFor, RoundUp, RZLog2Size;
    var c := s.chunks[m];
    HoldsChunk(s, m);
    LoadStored(s.mem, m, c);
    MetadataRoundTrip(s.mem, m, c);
    assert BlockOk(c.b, s.mem.blocks[c.b], |s.mem.shadow|);
    RedzoneBelowPage(m, c);
  }

  /** Such a chunk is not rare: a request of 256 KiB under the default options
      puts its header 2032 bytes into the block. */
  lemma DefaultLargeChunkAborts(b: nat)
    requires b % PAGE == 0
    ensures var p := MakePlan(0x4_0000, 8, 16, 2048);
      p.Plan? && !p.primary && UserBeg(b, p) == b + 2048 && (UserBeg(b, p) - HEADER) % PAGE != 0
  {
    assert Pow2(7) == 128;
    assert ComputeRZLog(0x4_0000, 16, 2048) == 7;
    RoundUpIs(0x4_0000, 8, 0x4_0000);
    ModDivides(b, PAGE, 2048);
    AddMultiple(b, 2048, 2048);
    ModDivides(b + 2048, 2048, 8);
    RoundUpIs(b + 2048, 8, b + 2048);
    AddMultiple(b, 2032, PAGE);
  }

  lemma RedzoneBelowPage(m: nat, c: Chunk)
    requires HeaderFor(m, c, false) && c.b % PAGE == 0
    ensures m % PAGE == 0 <==> c.h.rzLog == 0 && !c.h.fromMemalign
    ensures m == c.b <==> c.h.rzLog == 0 && !c.h.fromMemalign
  {
    RedzoneBounds(c.h.rzLog);
    var rz := RZLog2Size(c.h.rzLog);
    if c.h.fromMemalign {
      assert m % 32 == 16;
    } else {
      assert m == c.b + rz - HEADER;
    }
  }

  lemma RedzoneBounds(log: nat)
    requires log < 8
    ensures HEADER <= RZLog2Size(log) <= 2048 && (RZLog2Size(log) == HEADER <==> log == 0)
  {
    Pow2Mono(log, 7);
    if log > 0 { Pow2Mono(1, log); }
  }
}
