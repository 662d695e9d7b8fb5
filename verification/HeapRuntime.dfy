/** The allocator's routines as they run: header words, magic pairs, metadata,
    shadow and statistics updated in place, each proved to do to memory what the
    machine's step says. */
module HeapRuntime {
  import opened Wrappers
  import opened Pow2Math
  import opened ChunkLayout
  import opened Shadow
  import opened HeapMemory
  import opened HeapMachine
  import opened HeapMetadata
  import opened HeapShadow

  /** PoisonShadow's CHECKs: whole granules of mapped shadow. */
  predicate InShadow(granules: nat, addr: nat, size: nat) {
    addr % GRANULE == 0 && size % GRANULE == 0 && (addr + size) / GRANULE <= granules
  }

  /** User memory of the chunk at m has shadow. */
  predicate UserInShadow(mem: Mem, m: nat) {
    m % GRANULE == 0 && InShadow(|mem.shadow|, m + HEADER, RoundUp(UsedSize(mem, m), GRANULE))
  }

  class Heap {
    var blocks: map<nat, Block>
    var cells: map<nat, (nat, nat)>
    var meta: map<nat, (nat, nat)>
    const shadow: array<nat>
    var canPoison: bool
    const partial: bool
    var stats: map<nat, Stats>

    constructor (granules: nat, on: bool, partial: bool)
      ensures Memory() == Mem(map[], map[], map[], seq(granules, _ => 0), on, partial)
      ensures stats == map[] && fresh(shadow)
    {
      blocks, cells, meta, canPoison, stats := map[], map[], map[], on, map[];
      shadow := new nat[granules](_ => 0);
      this.partial := partial;
    }

    ghost function Memory(): Mem
      reads this, shadow
    {
      Mem(blocks, cells, meta, shadow[..], canPoison, partial)
    }

    /** A copy of memory without shadow, for the routines that only read metadata. */
    function Metadata(): Mem
      reads this
    {
      Mem(blocks, cells, meta, [], canPoison, partial)
    }

    lemma MetadataAgrees(m: nat)
      ensures Load(Metadata(), m) == Load(Memory(), m)
      ensures UsedSize(Metadata(), m) == UsedSize(Memory(), m)
      ensures AllocBeg(Metadata(), m) == AllocBeg(Memory(), m)
      ensures m in blocks ==> ChunkOf(Metadata(), m) == ChunkOf(Memory(), m)
    {
      hide Unpack, BlockBegin, RZLog2Size;
    }

    method PoisonRange(addr: nat, size: nat, v: nat)
      requires InShadow(shadow.Length, addr, size)
      modifies shadow
      ensures Memory() == old(Memory()).(shadow := Poison(old(Memory()).shadow, canPoison, addr, size, v))
    {
      PoisonShadow(shadow, canPoison, addr, size, v);
      assert shadow[..] == Poison(old(shadow[..]), canPoison, addr, size, v);
    }

    /** FastPoisonShadowPartialRightRedzone. */
    method PoisonTail(addr: nat, size: nat, redzone: nat, v: nat)
      requires InShadow(shadow.Length, addr, redzone)
      modifies shadow
      ensures Memory() == old(Memory()).(shadow := PoisonPartial(old(Memory()).shadow, addr, size, redzone, partial, v))
    {
      PoisonPartialRightRedzone(shadow, addr, size, redzone, partial, v);
      assert shadow[..] == PoisonPartial(old(shadow[..]), addr, size, redzone, partial, v);
    }

    /** Allocate's clearing of user memory. */
    method ClearUser(user: nat, size: nat)
      requires user % GRANULE == 0 && (user + size + 7) / GRANULE <= shadow.Length
      modifies shadow
      ensures Memory() == old(Memory()).(shadow := Unpoison(old(Memory()).shadow, canPoison, partial, user, size))
    {
      var whole := size - size % GRANULE;
      if whole != 0 { PoisonRange(user, whole, 0); }
      assert shadow[..] == Poison(old(shadow[..]), canPoison, user, whole, 0);
      if size != whole && canPoison {
        shadow[(user + whole) / GRANULE] := if partial then size % GRANULE else 0;
      }
      assert shadow[..] == Unpoison(old(shadow[..]), canPoison, partial, user, size);
    }

    /** The metadata and shadow writes of Allocate, up to the last. */
    method FillChunk(t: nat, b: nat, m: nat, size: nat, h: Header)
      requires b in blocks && m % GRANULE == 0 && (m + HEADER + size + 7) / GRANULE <= shadow.Length
      modifies this, shadow
      ensures Memory() == HeapMemory.FillChunk(old(Memory()), b, m, size, h)
      ensures stats == CountMalloc(old(stats), t, size)
    {
      hide Load, Pack, Unpoison;
      MetadataAgrees(m);
      var state := Load(Metadata(), m).state;
      cells := cells[m := Pack(h.(state := state))];
      if b != m { cells := cells[b := (ALLOC_BEG_MAGIC, m)]; }
      if !blocks[b].primary { meta := meta[b := (size, m)]; }
      ClearUser(m + HEADER, size);
      stats := CountMalloc(stats, t, size);
    }

    /** Poisons a raw block that came unpoisoned. */
    method PoisonIfClear(b: nat)
      requires GoodBlocks(blocks, shadow.Length) && b in blocks
      modifies shadow
      ensures Memory() == Dirty(old(Memory()), b)
    {
      hide GoodBlocks, InShadow;
      BlockInShadow(blocks, shadow.Length, b);
      if shadow[b / GRANULE] == 0 && canPoison {
        PoisonRange(b, blocks[b].size, HEAP_LEFT_REDZONE);
      }
    }

    /** The atomic store or exchange of the state byte. */
    method StoreState(m: nat, state: nat)
      modifies this`cells
      ensures Memory() == SetState(old(Memory()), m, state)
    {
      MetadataAgrees(m);
      cells := cells[m := Pack(Load(Metadata(), m).(state := state))];
    }

    /** Allocate on raw block b: None when the request is too big, else the user
        pointer, with memory as the three steps of the machine leave it. */
    method Allocate(e: Event, minRz: nat, maxRz: nat) returns (user: Option<nat>)
      requires e.Malloc? && LegalOptions(minRz, maxRz) && GoodBlocks(blocks, shadow.Length)
      requires PowerOfTwo(EffectiveAlign(e.alignment)) && e.b in blocks
      requires var p := MakePlan(e.request, e.alignment, minRz, maxRz);
        p.Plan? ==> p.needed <= blocks[e.b].size && blocks[e.b].primary == p.primary
      modifies this, shadow
      ensures var size := if e.request == 0 then 1 else e.request;
        var align := if e.alignment < 8 then 8 else e.alignment;
        && (user == None <==> ExceedsLimit(size, align, RZLog2Size(ComputeRZLog(size, minRz, maxRz))))
        && (user.Some? ==> user.value % align == 0 && user.value >= e.b + minRz
                           && user.value + size <= e.b + old(blocks)[e.b].size)
      ensures var p := MakePlan(e.request, e.alignment, minRz, maxRz);
        if p.TooBig? then user == None && Memory() == old(Memory()) && stats == old(stats)
        else
          && user == Some(UserBeg(e.b, p))
          && Memory() == Allocated(old(Memory()), e, p)
          && stats == CountMalloc(old(stats), e.t, Max(e.request, 1))
    {
      hide MakePlan, RoundUp, RZLog2Size, NeededSize, HeapMemory.FillChunk, SetState, NewHeader, PowerOfTwo;
      hide UserBeg, Dirty, ExceedsLimit, ComputeRZLog;
      hide Fits, GoodPlan;
      var p := MakePlan(e.request, e.alignment, minRz, maxRz);
      PlanIsExact(e.request, e.alignment, minRz, maxRz);
      if p.TooBig? { return None; }
      PlanArithmetic(e.request, e.alignment, minRz, maxRz);
      assert BlockOk(e.b, blocks[e.b], shadow.Length);
      PlacementFits(p, e.b, blocks[e.b].size);
      var m := UserBeg(e.b, p) - HEADER;
      FitsShadow(e.b, blocks[e.b].size, m, p.size, shadow.Length);
      PoisonIfClear(e.b);
      FillChunk(e.t, e.b, m, p.size, NewHeader(e, p, m));
      StoreState(m, ALLOCATED);
      user := Some(m + HEADER);
    }

    /** Deallocate: only the caller that finds ALLOCATED quarantines the chunk. */
    method Deallocate(t: nat, p: nat) returns (won: bool)
      requires p >= HEADER && Load(Memory(), p - HEADER).state == ALLOCATED ==>
                 UserInShadow(SetFreeTid(SetState(Memory(), p - HEADER, QUARANTINE), p - HEADER, t), p - HEADER)
      modifies this, shadow
      ensures won <==> p >= HEADER && Load(old(Memory()), p - HEADER).state == ALLOCATED
      ensures !won ==> Memory() == old(Memory()) && stats == old(stats)
      ensures won ==> var mem1 := SetState(old(Memory()), p - HEADER, QUARANTINE);
        var size := UsedSize(SetFreeTid(mem1, p - HEADER, t), p - HEADER);
        && Memory() == HeapMemory.QuarantineChunk(mem1, p - HEADER, t)
        && stats == CountFree(old(stats), t, size)
    {
      hide Load, UsedSize, HeapMemory.QuarantineChunk, SetState, SetFreeTid;
      if p < HEADER { return false; }
      var m := p - HEADER;
      MetadataAgrees(m);
      won := Load(Metadata(), m).state == ALLOCATED;
      if won {
        StoreState(m, QUARANTINE);
        QuarantineChunk(t, m);
      }
    }

    /** QuarantineChunk, up to the push into the quarantine. */
    method QuarantineChunk(t: nat, m: nat)
      requires UserInShadow(SetFreeTid(Memory(), m, t), m)
      modifies this, shadow
      ensures Memory() == HeapMemory.QuarantineChunk(old(Memory()), m, t)
      ensures stats == CountFree(old(stats), t, UsedSize(SetFreeTid(old(Memory()), m, t), m))
    {
      hide Load, UsedSize, RoundUp;
      MetadataAgrees(m);
      cells := cells[m := Pack(Load(Metadata(), m).(freeTid := t))];
      assert Memory() == SetFreeTid(old(Memory()), m, t);
      MetadataAgrees(m);
      var size := UsedSize(Metadata(), m);
      PoisonRange(m + HEADER, RoundUp(size, GRANULE), HEAP_FREE);
      stats := CountFree(stats, t, size);
    }

    /** Recycle, up to the return of the raw block; says whether its CHECKs held. */
    method Recycle(t: nat, m: nat) returns (p: nat, ok: bool)
      requires UserInShadow(SetState(Memory(), m, AVAILABLE), m)
      modifies this, shadow
      ensures var mem1 := SetState(old(Memory()), m, AVAILABLE);
        && Memory() == RecycleChunk(old(Memory()), m) && p == AllocBeg(mem1, m)
        && stats == CountRealFree(old(stats), t, UsedSize(mem1, m))
        && ok == (Load(old(Memory()), m).state == QUARANTINE
                  && Load(mem1, m).allocTid != INVALID_TID && Load(mem1, m).freeTid != INVALID_TID
                  && (p != m ==> CellAt(mem1, p) == (ALLOC_BEG_MAGIC, m)))
    {
      hide Load, UsedSize, AllocBeg, SetState, UserInShadow;
      var size;
      ok, size := MakeAvailable(m);
      SameMetadata(SetState(old(Memory()), m, AVAILABLE), Memory(), m);
      MetadataAgrees(m);
      p := AllocBeg(Metadata(), m);
      var marked := ClearMarker(p, m);
      ok := ok && marked;
      stats := CountRealFree(stats, t, size);
    }

    /** Recycle's first half: the state byte and the shadow of user memory. */
    method MakeAvailable(m: nat) returns (ok: bool, size: nat)
      requires UserInShadow(SetState(Memory(), m, AVAILABLE), m)
      modifies this`cells, shadow
      ensures var mem1 := SetState(old(Memory()), m, AVAILABLE);
        && Memory() == PoisonUser(mem1, m, HEAP_LEFT_REDZONE) && size == UsedSize(mem1, m)
        && ok == (Load(old(Memory()), m).state == QUARANTINE
                  && Load(mem1, m).allocTid != INVALID_TID && Load(mem1, m).freeTid != INVALID_TID)
    {
      hide Load, UsedSize, RoundUp, Poison, InShadow, SetState;
      MetadataAgrees(m);
      ok := Load(Metadata(), m).state == QUARANTINE;
      StoreState(m, AVAILABLE);
      MetadataAgrees(m);
      var h := Load(Metadata(), m);
      ok := ok && h.allocTid != INVALID_TID && h.freeTid != INVALID_TID;
      size := UsedSize(Metadata(), m);
      PoisonRange(m + HEADER, RoundUp(size, GRANULE), HEAP_LEFT_REDZONE);
    }

    /** Clears the marker at the start of the block, if the header is elsewhere. */
    method ClearMarker(p: nat, m: nat) returns (ok: bool)
      modifies this`cells
      ensures Memory() == old(Memory()).(
        cells := if p != m then old(cells)[p := (0, CellAt(old(Memory()), p).1)] else old(cells))
      ensures ok == (p != m ==> CellAt(old(Memory()), p) == (ALLOC_BEG_MAGIC, m))
    {
      ok := true;
      if p != m {
        var word := if p in cells then cells[p] else (0, 0);
        ok := word.0 == ALLOC_BEG_MAGIC;
        cells := cells[p := (0, word.1)];
        ok := ok && cells[p].1 == m;
      }
    }

    /** RePoisonChunk on the block at b; says whether its size query was answered. */
    method RePoisonChunk(b: nat) returns (ok: bool)
      requires GoodBlocks(blocks, shadow.Length) && b in blocks && canPoison
      requires SizeQueryOk(Memory(), b) ==> ChunkOf(Memory(), b) % 16 == 0
      modifies shadow
      ensures ok == SizeQueryOk(old(Memory()), b)
      ensures Memory() == if ok then RePoison(old(Memory()), b) else old(Memory())
    {
      hide Load, UsedSize, RoundUp, AllocBeg, ChunkOf, GoodBlocks, Poison, PoisonPartial;
      ghost var mem := Memory();
      MetadataAgrees(b);
      var m := ChunkOf(Metadata(), b);
      ok := blocks[b].primary || (b in meta && m % PAGE == 0);
      if !ok { return; }
      var size := blocks[b].size;
      MetadataAgrees(m);
      var beg := m + HEADER;
      var end := beg + UsedSize(Metadata(), m);
      SweepRanges(blocks, shadow.Length, b, m, end);
      if b < beg && beg < end && end <= b + size && Load(Metadata(), m).state == ALLOCATED {
        assert LooksInUse(mem, b);
        PoisonRange(b, beg - b, HEAP_LEFT_REDZONE);
        var down := end - end % GRANULE;
        PoisonTail(down, end - down, b + size - down, HEAP_LEFT_REDZONE);
      } else {
        assert !LooksInUse(mem, b);
        PoisonRange(b, size, HEAP_LEFT_REDZONE);
      }
    }

    /** The sweep of ReInitialize, over the blocks the raw allocator lists, if
        nobody else moves meanwhile; it goes no further than a query that fails. */
    method SweepAll(bs: seq<nat>) returns (ok: bool)
      requires GoodBlocks(blocks, shadow.Length) && canPoison
      requires forall b :: b in bs ==> b in blocks && (SizeQueryOk(Memory(), b) ==> ChunkOf(Memory(), b) % 16 == 0)
      modifies shadow
      ensures ok <==> forall b :: b in bs ==> SizeQueryOk(old(Memory()), b)
      ensures ok ==> Memory() == Sweep(old(Memory()), bs)
    {
      hide ChunkOf, RePoison, Sweep, GoodBlocks, SizeQueryOk;
      ghost var mem := Memory();
      SweepStart(mem);
      assert bs[..0] == [];
      for i := 0 to |bs|
        invariant Memory() == Sweep(mem, bs[..i])
        invariant forall b :: b in bs[..i] ==> SizeQueryOk(mem, b)
      {
        assert bs[..i + 1][..i] == bs[..i];
        SweepNext(mem, bs[..i + 1]);
        SameChunks(mem, Memory(), bs[i]);
        ok := RePoisonChunk(bs[i]);
        if !ok {
          assert bs[i] in bs;
          return;
        }
      }
      assert bs[..|bs|] == bs;
      ok := true;
    }
  }

  lemma BlockInShadow(blocks: map<nat, Block>, granules: nat, b: nat)
    requires GoodBlocks(blocks, granules) && b in blocks
    ensures InShadow(granules, b, blocks[b].size) && b / GRANULE < granules
    ensures b % 16 == 0 && blocks[b].size % 16 == 0 && (b + blocks[b].size) / GRANULE <= granules
  {
    hide Apart, InShadow;
    assert BlockOk(b, blocks[b], granules);
    RangeInShadow(b, blocks[b].size, granules);
  }

  lemma RangeInShadow(b: nat, size: nat, granules: nat)
    requires b % 16 == 0 && size % 16 == 0 && size > 0 && (b + size) / GRANULE <= granules
    ensures InShadow(granules, b, size) && b / GRANULE < granules
  {
    ModDivides(b, 16, GRANULE);
    ModDivides(size, 16, GRANULE);
    AddMultiple(b, size, GRANULE);
    DivMono(GRANULE, size, GRANULE);
  }

  /** The ranges the sweep paints are whole granules of mapped shadow. */
  lemma SweepRanges(blocks: map<nat, Block>, granules: nat, b: nat, m: nat, end: nat)
    requires GoodBlocks(blocks, granules) && b in blocks && m % 16 == 0
    ensures InShadow(granules, b, blocks[b].size)
    ensures b < m + HEADER < end <= b + blocks[b].size ==>
      && InShadow(granules, b, m + HEADER - b)
      && InShadow(granules, end - end % GRANULE, b + blocks[b].size - (end - end % GRANULE))
  {
    hide GoodBlocks, InShadow;
    BlockInShadow(blocks, granules, b);
    if b < m + HEADER < end <= b + blocks[b].size {
      PartInShadow(b, b + blocks[b].size, granules, m);
      RestInShadow(b, blocks[b].size, granules, end);
    }
  }

  lemma PartInShadow(b: nat, blockEnd: nat, granules: nat, m: nat)
    requires b % 16 == 0 && m % 16 == 0 && b < m + HEADER <= blockEnd && blockEnd / GRANULE <= granules
    ensures InShadow(granules, b, m + HEADER - b)
  {
    var size := m + HEADER - b;
    AddMultiple(m, HEADER, 16);
    AddMultiple(b, size, 16);
    ModDivides(size, 16, GRANULE);
    ModDivides(b, 16, GRANULE);
    DivMono(m + HEADER, blockEnd, GRANULE);
  }

  lemma RestInShadow(b: nat, size: nat, granules: nat, end: nat)
    requires b % 16 == 0 && size % 16 == 0 && end <= b + size && (b + size) / GRANULE <= granules
    ensures InShadow(granules, end - end % GRANULE, b + size - (end - end % GRANULE))
  {
    var down := end - end % GRANULE;
    DivMod(end / GRANULE, 0, GRANULE);
    AddMultiple(b, size, 16);
    ModDivides(b + size, 16, GRANULE);
    AddMultiple(down, b + size - down, GRANULE);
  }

  lemma SameMetadata(mem: Mem, mem': Mem, m: nat)
    requires mem' == mem.(shadow := mem'.shadow)
    ensures Load(mem', m) == Load(mem, m) && UsedSize(mem', m) == UsedSize(mem, m)
    ensures AllocBeg(mem', m) == AllocBeg(mem, m)
  {
    hide Unpack, BlockBegin, RZLog2Size;
  }

  lemma SameChunks(mem: Mem, mem': Mem, b: nat)
    requires mem' == mem.(shadow := mem'.shadow) && b in mem.blocks
    ensures ChunkOf(mem', b) == ChunkOf(mem, b) && (SizeQueryOk(mem', b) <==> SizeQueryOk(mem, b))
  {
  }

  lemma SweepStart(mem: Mem)
    ensures Sweep(mem, []) == mem
  {
  }

  lemma SweepNext(mem: Mem, bs: seq<nat>)
    requires bs != [] && forall b :: b in bs ==> b in mem.blocks
    ensures Sweep(mem, bs) == RePoison(Sweep(mem, bs[..|bs| - 1]), bs[|bs| - 1])
  {
  }

  /** Thread t's counters after an allocation of `size` bytes. */
  function CountMalloc(stats: map<nat, Stats>, t: nat, size: nat): map<nat, Stats> {
    var c := Counters(stats, t);
    stats[t := c.(mallocs := c.mallocs + 1, malloced := c.malloced + size)]
  }

  function CountFree(stats: map<nat, Stats>, t: nat, size: nat): map<nat, Stats> {
    var c := Counters(stats, t);
    stats[t := c.(frees := c.frees + 1, freed := c.freed + size)]
  }

  function CountRealFree(stats: map<nat, Stats>, t: nat, size: nat): map<nat, Stats> {
    var c := Counters(stats, t);
    stats[t := c.(realFrees := c.realFrees + 1, reallyFreed := c.reallyFreed + size)]
  }

  /** Memory after a whole allocation. */
  function Allocated(mem: Mem, e: Event, p: Plan): Mem
    requires e.Malloc? && p.Plan? && p.rzLog < 8 && p.align > 0 && e.b in mem.blocks
  {
    var m := UserBeg(e.b, p) - HEADER;
    SetState(HeapMemory.FillChunk(Dirty(mem, e.b), e.b, m, p.size, NewHeader(e, p, m)), m, ALLOCATED)
  }

  lemma FitsShadow(b: nat, room: nat, m: nat, size: nat, granules: nat)
    requires Fits(b, room, m, size) && (b + room) / GRANULE <= granules
    ensures m % GRANULE == 0 && (m + HEADER + size + 7) / GRANULE <= granules && b / GRANULE < granules
    ensures InShadow(granules, b, room)
  {
    UserFitsShadow(b, room, m, size, granules);
    AddMultiple(m + HEADER, size + 7, GRANULE);
    AddMultiple(m + HEADER, RoundUp(size, GRANULE), GRANULE);
    DivMod((size + 7) / GRANULE, 0, GRANULE);
    ModDivides(b, 16, GRANULE);
    ModDivides(room, 16, GRANULE);
    AddMultiple(b, room, GRANULE);
    DivMono(HEADER, room, GRANULE);
  }

  /** Allocate in one go leaves memory as the machine's three steps do when
      nobody else moves in between. */
  lemma AllocateIsThreeSteps(s: State, e: Event)
    requires e.Malloc? && MallocEnabled(s, e)
    ensures var m := NewAddr(s, e); var c := NewChunk(s, e);
      var s1 := DoMalloc(s, e);
      var s2 := DoFill(s1, e.t, m, e.b, c.size, c.h);
      && PcOf(s1, e.t) == At(m, Fill(e.b, c.size, c.h)) && PcOf(s2, e.t) == At(m, Publish)
      && DoPublish(s2, e.t, m).mem == Allocated(s.mem, e, PlanFor(s, e))
  {
    hide HeapMemory.FillChunk, SetState, Dirty, AllocateChecks, MakePlan, UserBeg, NewHeader;
  }

  /** What Deallocate asks for holds of every live chunk of a reachable heap. */
  lemma LiveIsInShadow(s: State, m: nat, t: nat)
    requires Inv(s) && m in s.chunks && s.chunks[m].stage == Live && t < INVALID_TID
    ensures UserInShadow(SetFreeTid(SetState(s.mem, m, QUARANTINE), m, t), m)
  {
    hide Inv, Load, UsedSize, RZLog2Size, BlockOk, FirstWord, SecondWord, InShadow;
    HoldsChunk(s, m);
    var c := s.chunks[m];
    LoadStored(s.mem, m, c);
    ExpectFits(m, c, s.mem.blocks[c.b].primary);
    var h := Expect(c).(state := QUARANTINE);
    var mem1 := SetState(s.mem, m, QUARANTINE);
    LoadStore(mem1, m, h);
    var mem2 := SetFreeTid(mem1, m, t);
    LoadStore(mem2, m, h.(freeTid := t));
    ChunkLeadsBack(mem2, m, c);
    BlockInShadow(s.mem.blocks, |s.mem.shadow|, c.b);
    UserFitsShadow(c.b, s.mem.blocks[c.b].size, m, c.size, |s.mem.shadow|);
  }

  lemma UserFitsShadow(b: nat, room: nat, m: nat, size: nat, granules: nat)
    requires Fits(b, room, m, size) && (b + room) / GRANULE <= granules
    ensures m % GRANULE == 0 && InShadow(granules, m + HEADER, RoundUp(size, GRANULE))
  {
    ModDivides(m, 16, GRANULE);
    AddMultiple(m, HEADER, GRANULE);
    DivMono(m + HEADER + RoundUp(size, GRANULE), b + room, GRANULE);
  }

  /** A winning Deallocate leaves memory and statistics as the machine's
      compare-and-exchange and quarantine steps do. */
  lemma DeallocateIsTwoSteps(s: State, t: nat, m: nat)
    requires Inv(s) && m in s.chunks && s.chunks[m].stage == Live && PcOf(s, t) == Idle && t < INVALID_TID
    ensures var s1 := DoFree(s, t, m + HEADER); var s2 := DoQuarantine(s1, t, m);
      var mem1 := SetState(s.mem, m, QUARANTINE);
      && PcOf(s1, t) == At(m, Quarantine) && s2.mem == HeapMemory.QuarantineChunk(mem1, m, t)
      && s2.stats == CountFree(s.stats, t, UsedSize(SetFreeTid(mem1, m, t), m))
      && UsedSize(SetFreeTid(mem1, m, t), m) == s.chunks[m].size
  {
    hide Inv, Load, UsedSize, HeapMemory.QuarantineChunk, QuarantineChecks, SetFreeTid, SetState;
    var c := s.chunks[m];
    HoldsChunk(s, m);
    LoadStored(s.mem, m, c);
    FreeKeeps(s, t, m + HEADER);
    var s1 := DoFree(s, t, m + HEADER);
    HoldsChunk(s1, m);
    MetadataRoundTrip(s1.mem, m, s1.chunks[m]);
    FreedSize(s1.mem, m, s1.chunks[m], t);
  }

  /** What Recycle asks for holds of every chunk taken out of the quarantine, and
      its CHECKs hold. */
  lemma RecycledIsInShadow(s: State, t: nat, m: nat)
    requires Inv(s) && PcOf(s, t) == At(m, HeapMachine.Recycle)
    ensures UserInShadow(SetState(s.mem, m, AVAILABLE), m)
    ensures var mem1 := SetState(s.mem, m, AVAILABLE);
      && m in s.chunks && AllocBeg(mem1, m) == s.chunks[m].b && UsedSize(mem1, m) == s.chunks[m].size
      && RecycleChecks(s.mem, m)
  {
    hide Inv, Load, UsedSize, AllocBeg, RZLog2Size, BlockOk, FirstWord, SecondWord, InShadow, RecycleChecks;
    AtOwn(s, t);
    var c := s.chunks[m];
    RecycleKeeps(s, t, m);
    LoadStored(s.mem, m, c);
    ExpectFits(m, c, s.mem.blocks[c.b].primary);
    var mem1 := SetState(s.mem, m, AVAILABLE);
    LoadStore(mem1, m, Expect(c).(state := AVAILABLE));
    ChunkLeadsBack(mem1, m, c);
    BlockInShadow(s.mem.blocks, |s.mem.shadow|, c.b);
    UserFitsShadow(c.b, s.mem.blocks[c.b].size, m, c.size, |s.mem.shadow|);
  }

  /** What RePoisonChunk asks for holds of every block a sweep can come to, in
      every state a run reaches. */
  lemma VisitIsReady(s: State, b: nat)
    requires Inv(s) && MetaInv(s) && Visitable(s, b)
    ensures GoodBlocks(s.mem.blocks, |s.mem.shadow|) && (SizeQueryOk(s.mem, b) ==> ChunkOf(s.mem, b) % 16 == 0)
  {
    hide Inv, MetaInv, ChunkOf, GoodBlocks, SizeQueryOk;
    BlocksGood(s);
    if b in s.occ {
      OccIsChunk(s, b);
      var m := s.occ[b];
      BlockInShadow(s.mem.blocks, |s.mem.shadow|, b);
      if Written(s.chunks[m].stage) {
        LiveLooksInUse(s, m);
      } else if SizeQueryOk(s.mem, b) {
        UnwrittenLooksFree(s, m);
      }
    } else {
      BlockInShadow(s.mem.blocks, |s.mem.shadow|, b);
      FreeAtStart(s, b);
    }
  }

  function Visits(bs: seq<nat>): seq<Event> { seq(|bs|, i requires 0 <= i < |bs| => Visit(bs[i])) }

  /** A sweep that nobody interrupts and no query stops does to memory what the
      machine's visits do one after the other. */
  lemma {:induction false} SweepIsVisits(s: State, bs: seq<nat>)
    requires !s.failed && s.mem.canPoison && forall b :: b in bs ==> b in s.mem.blocks
    requires forall b :: b in bs ==> Visitable(s, b) && SizeQueryOk(s.mem, b)
    ensures CanRun(s, Visits(bs)) && Exec(s, Visits(bs)).mem == Sweep(s.mem, bs) && !Exec(s, Visits(bs)).failed
    ensures Exec(s, Visits(bs)).occ == s.occ
    decreases |bs|
  {
    hide RePoison, SizeQueryOk, Enabled, Apply;
    if bs == [] {
      assert Visits(bs) == [];
    } else {
      var init, b := bs[..|bs| - 1], bs[|bs| - 1];
      SweepIsVisits(s, init);
      var s1 := Exec(s, Visits(init));
      VisitOne(s1, b, s);
      assert [Visit(b)][1..] == [];
      Joined(s, Visits(init), [Visit(b)]);
      assert Visits(bs) == Visits(init) + [Visit(b)];
    }
  }

  lemma VisitOne(s1: State, b: nat, s: State)
    requires !s1.failed && s1.mem == s.mem.(shadow := s1.mem.shadow) && s.mem.canPoison && s1.occ == s.occ
    requires Visitable(s, b) && SizeQueryOk(s.mem, b)
    ensures Enabled(s1, Visit(b))
    ensures var f := Apply(s1, Visit(b)); f.mem == RePoison(s1.mem, b) && !f.failed && f.occ == s.occ
  {
    hide RePoison;
    SameChunks(s.mem, s1.mem, b);
  }
}
