/** Shadow follows the life of every chunk: what each granule of each block
    holds at each stage, with poisoning on, off, and on again after a sweep. */
module HeapShadow {
  import opened Wrappers
  import opened Pow2Math
  import opened ChunkLayout
  import opened Shadow
  import opened HeapMemory
  import opened HeapMachine
  import opened HeapMetadata

  predicate UserClosed(stage: Stage) { stage.Queued? || (stage.Busy? && (stage.step.Put? || stage.step.Recycle?)) }

  /** Granule g belongs to the block at b. */
  predicate Owns(blocks: map<nat, Block>, b: nat, g: int) {
    b in blocks && b / GRANULE <= g < (b + blocks[b].size) / GRANULE
  }

  predicate AllOf(mem: Mem, b: nat, v: nat) {
    forall g :: 0 <= g < |mem.shadow| && Owns(mem.blocks, b, g) ==> mem.shadow[g] == v
  }

  function UserGranule(m: nat): nat { (m + HEADER) / GRANULE }

  /** The whole granules of user memory are clear. */
  predicate Clear(mem: Mem, m: nat, size: nat) {
    forall g :: 0 <= g < |mem.shadow| && UserGranule(m) <= g < UserGranule(m) + size / GRANULE ==> mem.shadow[g] == 0
  }

  /** The byte a granule of a chunk in use should hold. */
  function OpenByte(m: nat, size: nat, partial: bool, g: nat): nat {
    if g < UserGranule(m) then HEAP_LEFT_REDZONE
    else PartialByte(g - UserGranule(m), size, partial, HEAP_LEFT_REDZONE)
  }

  predicate Open(mem: Mem, m: nat, b: nat, size: nat) {
    forall g :: 0 <= g < |mem.shadow| && Owns(mem.blocks, b, g) ==> mem.shadow[g] == OpenByte(m, size, mem.partial, g)
  }

  predicate UserSpan(m: nat, size: nat, g: int) {
    UserGranule(m) <= g < UserGranule(m) + (size + 7) / GRANULE
  }

  /** Freed user memory carries the free tag, or the redzone tag if the tag was lost. */
  predicate Closed(mem: Mem, m: nat, b: nat, size: nat, tagged: bool) {
    forall g :: 0 <= g < |mem.shadow| && Owns(mem.blocks, b, g) ==>
      mem.shadow[g] == if tagged && UserSpan(m, size, g) then HEAP_FREE else HEAP_LEFT_REDZONE
  }

  /** Open user memory that a visit poisoned: its whole granules are redzone, and
      at most the granule after them is as it should be. */
  predicate ShutOff(mem: Mem, m: nat, b: nat, size: nat) {
    forall g :: 0 <= g < |mem.shadow| && Owns(mem.blocks, b, g) ==>
      || mem.shadow[g] == HEAP_LEFT_REDZONE
      || (size >= GRANULE && g == UserGranule(m) + size / GRANULE && mem.shadow[g] == OpenByte(m, size, mem.partial, g))
  }

  predicate ChunkShadow(mem: Mem, m: nat, c: Chunk, tagged: bool, caught: bool, sound: bool) {
    if !UserOpen(c.stage) then
      && !caught
      && (sound ==>
            if UserClosed(c.stage) then Closed(mem, m, c.b, c.size, tagged) else AllOf(mem, c.b, HEAP_LEFT_REDZONE))
    else if caught then sound && ShutOff(mem, m, c.b, c.size)
    else Clear(mem, m, c.size) && (sound ==> Open(mem, m, c.b, c.size))
  }

  /** A block not handed out. If it was mapped while poisoning was off it stays clear until its first use. */
  predicate FreeShadow(s: State, b: nat) {
    if b in s.sound then AllOf(s.mem, b, HEAP_LEFT_REDZONE) else b !in s.used ==> AllOf(s.mem, b, 0)
  }

  predicate BlockShadow(s: State, b: nat) {
    if b in s.occ && s.occ[b] in s.chunks then
      var m := s.occ[b];
      ChunkShadow(s.mem, m, s.chunks[m], m in s.tagged, m in s.caught, b in s.sound)
    else FreeShadow(s, b)
  }

  /** Granule g belongs to the block at b or to its header page. */
  predicate Touches(blocks: map<nat, Block>, b: nat, g: int) {
    b in blocks && Low(b, blocks[b]) / GRANULE <= g < (b + blocks[b].size) / GRANULE
  }

  ghost predicate Unowned(blocks: map<nat, Block>, g: int) { forall b :: b in blocks ==> !Touches(blocks, b, g) }

  /** Granule g belongs to the header page of the block at b. */
  predicate InPage(blocks: map<nat, Block>, b: nat, g: int) {
    b in blocks && Low(b, blocks[b]) / GRANULE <= g < b / GRANULE
  }

  /** A header page is redzone from mapping to unmapping, or clear if it was mapped while poisoning was off. */
  predicate PageShadow(s: State, b: nat) {
    forall g :: 0 <= g < |s.mem.shadow| && InPage(s.mem.blocks, b, g) ==>
      s.mem.shadow[g] == if b in s.lined then HEAP_LEFT_REDZONE else 0
  }

  ghost predicate ShadowInv(s: State) {
    && (forall b :: b in s.mem.blocks ==> BlockShadow(s, b) && PageShadow(s, b))
    && (forall g :: 0 <= g < |s.mem.shadow| && Unowned(s.mem.blocks, g) ==> s.mem.shadow[g] == 0)
  }

  // ------------------------------------------------------------------- frame

  /** Only granules of block b0 differ. */
  ghost predicate OnlyShadow(mem: Mem, mem': Mem, b0: nat) {
    && |mem'.shadow| == |mem.shadow| && mem'.blocks == mem.blocks && mem'.partial == mem.partial
    && forall g :: 0 <= g < |mem.shadow| && !Owns(mem.blocks, b0, g) ==> mem'.shadow[g] == mem.shadow[g]
  }

  /** Only granules of block b0 and its header page differ. */
  ghost predicate OnlyWhole(mem: Mem, mem': Mem, b0: nat) {
    && |mem'.shadow| == |mem.shadow| && mem'.blocks == mem.blocks && mem'.partial == mem.partial
    && forall g :: 0 <= g < |mem.shadow| && !Touches(mem.blocks, b0, g) ==> mem'.shadow[g] == mem.shadow[g]
  }

  lemma ShadowIsWhole(mem: Mem, mem': Mem, b0: nat)
    requires OnlyShadow(mem, mem', b0)
    ensures OnlyWhole(mem, mem', b0)
  {
    hide Touches;
    forall g | 0 <= g < |mem.shadow| && !Touches(mem.blocks, b0, g) ensures mem'.shadow[g] == mem.shadow[g] {
      if Owns(mem.blocks, b0, g) { OwnsTouches(mem.blocks, b0, g); }
    }
  }

  lemma PageTouches(blocks: map<nat, Block>, b: nat, g: int)
    requires InPage(blocks, b, g)
    ensures Touches(blocks, b, g) && !Owns(blocks, b, g)
  {
    DivMono(b, b + blocks[b].size, GRANULE);
  }

  /** A step inside a block leaves every header page alone, its own included. */
  lemma PageStays(s: State, s': State, b0: nat, b: nat)
    requires GoodBlocks(s.mem.blocks, |s.mem.shadow|) && OnlyShadow(s.mem, s'.mem, b0)
    requires b in s.mem.blocks && (b in s.lined <==> b in s'.lined) && PageShadow(s, b)
    ensures PageShadow(s', b)
  {
    hide GoodBlocks, Touches, Owns, InPage;
    forall g | 0 <= g < |s.mem.shadow| && InPage(s.mem.blocks, b, g) ensures s'.mem.shadow[g] == s.mem.shadow[g] {
      PageTouches(s.mem.blocks, b, g);
      if Owns(s.mem.blocks, b0, g) {
        OwnsTouches(s.mem.blocks, b0, g);
        TouchOne(s.mem.blocks, |s.mem.shadow|, b, b0, g);
      }
    }
  }

  /** Mapping or unmapping one block leaves the header pages of all others alone. */
  lemma OtherPageStays(s: State, s': State, b0: nat, b: nat)
    requires GoodBlocks(s.mem.blocks, |s.mem.shadow|) && OnlyWhole(s.mem, s'.mem, b0) && b != b0
    requires b in s.mem.blocks && (b in s.lined <==> b in s'.lined) && PageShadow(s, b)
    ensures PageShadow(s', b)
  {
    hide GoodBlocks, Touches, InPage;
    forall g | 0 <= g < |s.mem.shadow| && InPage(s.mem.blocks, b, g) ensures s'.mem.shadow[g] == s.mem.shadow[g] {
      PageTouches(s.mem.blocks, b, g);
      if Touches(s.mem.blocks, b0, g) { TouchOne(s.mem.blocks, |s.mem.shadow|, b, b0, g); }
    }
  }

  lemma OwnsTouches(blocks: map<nat, Block>, b: nat, g: int)
    requires Owns(blocks, b, g)
    ensures Touches(blocks, b, g)
  {
    DivMono(Low(b, blocks[b]), b, GRANULE);
  }

  lemma TouchOne(blocks: map<nat, Block>, granules: nat, b: nat, c: nat, g: int)
    requires GoodBlocks(blocks, granules) && Touches(blocks, b, g) && Touches(blocks, c, g)
    ensures b == c
  {
    hide BlockOk;
  }

  /** User memory lies inside the block, granule for granule. */
  lemma UserInBlock(blocks: map<nat, Block>, m: nat, c: Chunk, g: int)
    requires Placed(blocks, m, c) && UserSpan(m, c.size, g)
    ensures Owns(blocks, c.b, g)
  {
    hide HeaderFor, StepFor;
  }

  /** Two states agree on everything that matters for block b. */
  predicate SameAt(s: State, s': State, b: nat) {
    && (b in s.occ <==> b in s'.occ) && (b in s.used <==> b in s'.used) && (b in s.sound <==> b in s'.sound)
    && (b in s.occ ==>
          && s'.occ[b] == s.occ[b] && s.occ[b] in s.chunks && s'.occ[b] in s'.chunks
          && s'.chunks[s.occ[b]] == s.chunks[s.occ[b]] && Placed(s.mem.blocks, s.occ[b], s.chunks[s.occ[b]])
          && s.chunks[s.occ[b]].b == b && (s.occ[b] in s.tagged <==> s.occ[b] in s'.tagged)
          && (s.occ[b] in s.caught <==> s.occ[b] in s'.caught))
  }

  lemma BlockStays(s: State, s': State, b0: nat, b: nat)
    requires GoodBlocks(s.mem.blocks, |s.mem.shadow|) && OnlyWhole(s.mem, s'.mem, b0)
    requires b in s.mem.blocks && b != b0 && SameAt(s, s', b) && BlockShadow(s, b)
    ensures BlockShadow(s', b)
  {
    hide GoodBlocks, PartialByte, HeaderFor, StepFor, Fits, Touches, ChunkShadow;
    forall g | 0 <= g < |s.mem.shadow| && Owns(s.mem.blocks, b, g)
      ensures s'.mem.shadow[g] == s.mem.shadow[g]
    {
      OwnsTouches(s.mem.blocks, b, g);
      if Touches(s.mem.blocks, b0, g) { TouchOne(s.mem.blocks, |s.mem.shadow|, b, b0, g); }
    }
    if b in s.occ {
      var m := s.occ[b];
      ChunkStays(s.mem, s'.mem, m, s.chunks[m], m in s.tagged, m in s.caught, b in s.sound);
    }
  }

  lemma ChunkStays(mem: Mem, mem': Mem, m: nat, c: Chunk, tagged: bool, caught: bool, sound: bool)
    requires Placed(mem.blocks, m, c) && mem'.blocks == mem.blocks && mem'.partial == mem.partial
    requires |mem'.shadow| == |mem.shadow|
    requires forall g :: 0 <= g < |mem.shadow| && Owns(mem.blocks, c.b, g) ==> mem'.shadow[g] == mem.shadow[g]
    requires ChunkShadow(mem, m, c, tagged, caught, sound)
    ensures ChunkShadow(mem', m, c, tagged, caught, sound)
  {
    hide PartialByte, Placed;
    if UserOpen(c.stage) && !caught {
      forall g | 0 <= g < |mem.shadow| && UserGranule(m) <= g < UserGranule(m) + c.size / GRANULE
        ensures mem'.shadow[g] == 0
      {
        UserInBlock(mem.blocks, m, c, g);
      }
    }
  }

  /** A step inside one block keeps the shadow invariant if it keeps that block's. */
  lemma StepInBlock(s: State, s': State, b0: nat)
    requires Inv(s) && ShadowInv(s) && OnlyShadow(s.mem, s'.mem, b0)
    requires b0 in s.mem.blocks && BlockShadow(s', b0) && s'.lined == s.lined
    requires forall b :: b in s.mem.blocks && b != b0 ==> SameAt(s, s', b)
    ensures ShadowInv(s')
  {
    hide Inv, BlockShadow, SameAt, PageShadow, OnlyShadow, GoodBlocks;
    BlocksGood(s);
    ShadowIsWhole(s.mem, s'.mem, b0);
    forall b | b in s'.mem.blocks
      ensures BlockShadow(s', b) && PageShadow(s', b)
    {
      if b != b0 { BlockStays(s, s', b0, b); }
      PageStays(s, s', b0, b);
    }
  }

  /** Chunk m of block b0 moved; every other block's record is as it was. */
  lemma OthersSame(s: State, s': State, b0: nat, m: nat)
    requires Inv(s) && b0 in s.mem.blocks && (b0 in s.occ ==> s.occ[b0] == m)
    requires b0 !in s.occ ==> m !in s.chunks
    requires forall b :: b != b0 ==>
      (b in s.occ <==> b in s'.occ) && (b in s.used <==> b in s'.used) && (b in s.sound <==> b in s'.sound)
    requires forall b :: b != b0 && b in s.occ && b in s'.occ ==> s'.occ[b] == s.occ[b]
    requires forall x :: x != m && x in s.chunks ==> x in s'.chunks && s'.chunks[x] == s.chunks[x]
    requires forall x :: x != m ==> (x in s.tagged <==> x in s'.tagged) && (x in s.caught <==> x in s'.caught)
    ensures forall b :: b in s.mem.blocks && b != b0 ==> SameAt(s, s', b)
  {
    hide Quiet, PcOk, InQueue, Stored, Placed;
    forall b | b in s.mem.blocks && b != b0
      ensures SameAt(s, s', b)
    {
      if b in s.occ {
        assert ChunkOk(s, s.occ[b]);
        assert s.occ[b] != m;
      }
    }
  }

  // ------------------------------------------------------- steps of a thread

  /** What the invariants say about a chunk, gathered. */
  lemma ChunkFacts(s: State, m: nat)
    requires Inv(s) && ShadowInv(s) && m in s.chunks
    ensures var c := s.chunks[m];
      && Placed(s.mem.blocks, m, c) && c.b in s.occ && s.occ[c.b] == m && c.b in s.used
      && ChunkShadow(s.mem, m, c, m in s.tagged, m in s.caught, c.b in s.sound)
      && BlockOk(c.b, s.mem.blocks[c.b], |s.mem.shadow|)
  {
    hide Quiet, PcOk, InQueue, Stored, ChunkShadow, BlockOk, HeaderFor, StepFor, Fits;
    assert ChunkOk(s, m);
    assert BlockShadow(s, s.chunks[m].b);
  }

  /** Only chunk m's record and memory change. */
  ghost predicate Relabels(s: State, s': State, m: nat, c': Chunk) {
    && m in s.chunks && s'.chunks == s.chunks[m := c'] && c'.b == s.chunks[m].b
    && s'.occ == s.occ && s'.used == s.used && s'.lined == s.lined
    && (forall b :: b != c'.b ==> (b in s.sound <==> b in s'.sound))
    && (forall x :: x != m ==> (x in s.tagged <==> x in s'.tagged) && (x in s.caught <==> x in s'.caught))
  }

  /** A step on chunk m that leaves the new stage with the right shadow. */
  lemma AdvanceShadow(s: State, s': State, m: nat, c': Chunk)
    requires Inv(s) && ShadowInv(s) && Relabels(s, s', m, c')
    requires OnlyShadow(s.mem, s'.mem, c'.b)
    requires ChunkShadow(s'.mem, m, c', m in s'.tagged, m in s'.caught, c'.b in s'.sound)
    ensures ShadowInv(s')
  {
    hide Inv, ShadowInv, ChunkShadow, OnlyShadow, BlockOk, Placed;
    ChunkFacts(s, m);
    InBlocks(s, m);
    OthersSame(s, s', c'.b, m);
    StepInBlock(s, s', c'.b);
  }

  lemma InBlocks(s: State, m: nat)
    requires Inv(s) && m in s.chunks
    ensures s.chunks[m].b in s.mem.blocks
  {
    hide Quiet, PcOk, InQueue, Stored, HeaderFor, StepFor, Fits;
    assert ChunkOk(s, m);
  }

  /** Clearing user memory of a poisoned block gives the shadow of a chunk in use. */
  lemma UnpoisonOpens(mem: Mem, mem': Mem, m: nat, c: Chunk)
    requires Placed(mem.blocks, m, c) && BlockOk(c.b, mem.blocks[c.b], |mem.shadow|)
    requires mem'.blocks == mem.blocks && mem'.partial == mem.partial
    requires mem'.shadow == Unpoison(mem.shadow, mem.canPoison, mem.partial, m + HEADER, c.size)
    ensures OnlyShadow(mem, mem', c.b) && Clear(mem', m, c.size)
    ensures (mem.canPoison || c.size % GRANULE == 0) && AllOf(mem, c.b, HEAP_LEFT_REDZONE) ==>
      Open(mem', m, c.b, c.size)
  {
    hide HeaderFor, StepFor;
    var u, whole := UserGranule(m), c.size / GRANULE;
    UserWhole(m, c.size);
    forall g | 0 <= g < |mem.shadow| && !Owns(mem.blocks, c.b, g)
      ensures mem'.shadow[g] == mem.shadow[g]
    {
      if UserSpan(m, c.size, g) { UserInBlock(mem.blocks, m, c, g); }
    }
  }

  lemma UserWhole(m: nat, size: nat)
    requires m % 16 == 0
    ensures (m + HEADER + (size - size % GRANULE)) / GRANULE == UserGranule(m) + size / GRANULE
  {
  }

  lemma FillShadow(s: State, t: nat, m: nat, b: nat, size: nat, h: Header)
    requires Inv(s) && ShadowInv(s) && PcOf(s, t) == At(m, Fill(b, size, h)) && b in s.mem.blocks
    ensures ShadowInv(DoFill(s, t, m, b, size, h))
  {
    hide Inv, ShadowInv, Unpoison, Open, Closed, Clear, AllOf, OnlyShadow, HeaderFor, Fits, Stored;
    var s' := DoFill(s, t, m, b, size, h);
    AtOwn(s, t);
    ChunkFacts(s, m);
    var c := s.chunks[m];
    UnpoisonOpens(s.mem, s'.mem, m, c);
    AdvanceShadow(s, s', m, c.(stage := Busy(t, Publish)));
  }

  /** A step that does not touch shadow and stays in the same part of the chunk's life. */
  lemma SameShadow(s: State, s': State, m: nat, c': Chunk)
    requires Inv(s) && ShadowInv(s) && Relabels(s, s', m, c')
    requires s'.mem.shadow == s.mem.shadow && s'.mem.blocks == s.mem.blocks && s'.mem.partial == s.mem.partial
    requires c'.size == s.chunks[m].size && s'.tagged == s.tagged && s'.caught == s.caught && s'.sound == s.sound
    requires UserOpen(c'.stage) == UserOpen(s.chunks[m].stage) && UserClosed(c'.stage) == UserClosed(s.chunks[m].stage)
    ensures ShadowInv(s')
  {
    hide Inv, ShadowInv, Placed;
    ChunkFacts(s, m);
    AdvanceShadow(s, s', m, c');
  }

  /** Quarantining and recycling: the granules of user memory get a new tag. */
  lemma TagsUser(mem: Mem, mem': Mem, m: nat, c: Chunk, v: nat)
    requires Placed(mem.blocks, m, c) && BlockOk(c.b, mem.blocks[c.b], |mem.shadow|)
    requires mem'.blocks == mem.blocks && mem'.partial == mem.partial && v != 0
    requires mem'.shadow == Poison(mem.shadow, mem.canPoison, m + HEADER, RoundUp(c.size, GRANULE), v)
    ensures OnlyShadow(mem, mem', c.b)
    ensures mem.canPoison && v == HEAP_FREE && (Open(mem, m, c.b, c.size) || ShutOff(mem, m, c.b, c.size)) ==>
      Closed(mem', m, c.b, c.size, true)
    ensures (mem.canPoison && v == HEAP_LEFT_REDZONE &&
             (Closed(mem, m, c.b, c.size, true) || Closed(mem, m, c.b, c.size, false))) ==> AllOf(mem', c.b, v)
  {
    hide HeaderFor, StepFor;
    SpanPaints(m, c.size);
    forall g | 0 <= g < |mem.shadow| && !Owns(mem.blocks, c.b, g)
      ensures mem'.shadow[g] == mem.shadow[g]
    {
      if UserSpan(m, c.size, g) { UserInBlock(mem.blocks, m, c, g); }
    }
  }

  lemma SpanPaints(m: nat, size: nat)
    requires m % 16 == 0
    ensures (m + HEADER + RoundUp(size, GRANULE)) / GRANULE == UserGranule(m) + (size + 7) / GRANULE
  {
  }

  lemma QuarantineShadow(s: State, t: nat, m: nat)
    requires Inv(s) && ShadowInv(s) && PcOf(s, t) == At(m, Quarantine)
    ensures ShadowInv(DoQuarantine(s, t, m))
  {
    hide Inv, ShadowInv, Open, Closed, Clear, ShutOff, AllOf, OnlyShadow, HeaderFor, Fits, RoundUp, Load;
    hide UsedSize, Pack;
    var s' := DoQuarantine(s, t, m);
    AtOwn(s, t);
    ChunkFacts(s, m);
    var c := s.chunks[m];
    LoadStored(s.mem, m, c);
    FreedSize(s.mem, m, c, t);
    TagsUser(s.mem, s'.mem, m, c, HEAP_FREE);
    AdvanceShadow(s, s', m, c.(stage := Busy(t, Put), freeTid := t));
  }

  /** Recording the freeing thread does not change what the header says about size. */
  lemma FreedSize(mem: Mem, m: nat, c: Chunk, t: nat)
    requires GoodBlocks(mem.blocks, |mem.shadow|) && Placed(mem.blocks, m, c) && Stored(mem, m, c) && t < INVALID_TID
    ensures UsedSize(SetFreeTid(mem, m, t), m) == c.size
  {
    hide Load, UsedSize, FirstWord, SecondWord, RZLog2Size, RoundUp;
    LoadStored(mem, m, c);
    var h := Expect(c).(freeTid := t);
    ExpectFits(m, c, mem.blocks[c.b].primary);
    LoadStore(SetFreeTid(mem, m, t), m, h);
    ChunkLeadsBack(SetFreeTid(mem, m, t), m, c);
  }

  lemma RecycleShadow(s: State, t: nat, m: nat)
    requires Inv(s) && ShadowInv(s) && PcOf(s, t) == At(m, Recycle)
    ensures ShadowInv(DoRecycle(s, t, m))
  {
    hide Inv, ShadowInv, Open, Closed, Clear, AllOf, OnlyShadow, HeaderFor, Fits, RoundUp, Load;
    hide UsedSize, Pack, AllocBeg, RecycleChunk;
    var s' := DoRecycle(s, t, m);
    AtOwn(s, t);
    ChunkFacts(s, m);
    var c := s.chunks[m];
    RecycleIs(s.mem, m, c);
    MetadataRoundTrip(s.mem, m, c);
    TagsUser(s.mem, s'.mem, m, c, HEAP_LEFT_REDZONE);
    AdvanceShadow(s, s', m, c.(stage := Busy(t, Release(c.b))));
  }

  lemma FreeShadowKept(s: State, t: nat, p: nat)
    requires Inv(s) && ShadowInv(s) && PcOf(s, t) == Idle && t < INVALID_TID
    ensures ShadowInv(DoFree(s, t, p))
  {
    hide Inv, ShadowInv, Load, Pack;
    if p >= HEADER && Load(s.mem, p - HEADER).state == ALLOCATED {
      var m := p - HEADER;
      AllocatedIsLive(s, m);
      SameShadow(s, DoFree(s, t, p), m, s.chunks[m].(stage := Busy(t, Quarantine)));
    }
  }

  // ------------------------------------------------- blocks come and go

  /** Allocate starts from a poisoned block whenever the block is sound, or came
      clear and was poisoned now; a block never used is one or the other while
      poisoning is on. */
  lemma DirtyPoisons(s: State, b: nat)
    requires GoodBlocks(s.mem.blocks, |s.mem.shadow|) && b in s.mem.blocks && FreeShadow(s, b)
    ensures var mem' := Dirty(s.mem, b);
      && OnlyShadow(s.mem, mem', b) && mem' == s.mem.(shadow := mem'.shadow)
      && (b in s.sound || ComesClear(s.mem, b) ==> AllOf(mem', b, HEAP_LEFT_REDZONE))
      && (s.mem.canPoison && b !in s.used ==> b in s.sound || ComesClear(s.mem, b))
  {
    hide Apart;
    assert BlockOk(b, s.mem.blocks[b], |s.mem.shadow|);
    assert Owns(s.mem.blocks, b, b / GRANULE);
  }

  lemma MallocShadow(s: State, e: Event)
    requires Inv(s) && ShadowInv(s) && e.Malloc? && MallocEnabled(s, e)
    ensures ShadowInv(DoMalloc(s, e))
  {
    hide Inv, GoodBlocks, AllOf, OnlyShadow, Dirty, ComesClear, Placed, NewAddr, PlanFor, NewHeader;
    hide AllocateChecks, SameAt;
    var s' := DoMalloc(s, e);
    var m := NewAddr(s, e);
    BlocksGood(s);
    assert BlockShadow(s, e.b);
    DirtyPoisons(s, e.b);
    MallocPlaces(s, e);
    InsideOwn(s.mem.blocks, m, NewChunk(s, e));
    FreeBlockQuiet(s, e.b, m);
    OthersSame(s, s', e.b, m);
    StepInBlock(s, s', e.b);
  }

  /** A released primary block is poisoned again. */
  lemma ReleasePrimary(s: State, t: nat, m: nat, b: nat)
    requires Inv(s) && ShadowInv(s) && PcOf(s, t) == At(m, Release(b)) && b in s.mem.blocks && s.mem.blocks[b].primary
    ensures ShadowInv(DoRelease(s, t, m, b))
  {
    hide Inv, GoodBlocks, AllOf, Placed, Stored, SameAt, BlockOk;
    var s' := DoRelease(s, t, m, b);
    AtOwn(s, t);
    ChunkFacts(s, m);
    ReleasedHome(s, t, m, b);
    assert s.chunks[m].b == b by { ReleaseBlock(s, t, m, b); }
    OthersSame(s, s', b, m);
    StepInBlock(s, s', b);
  }

  /** An unmapped secondary block leaves clear shadow behind. */
  lemma ReleaseSecondary(s: State, t: nat, m: nat, b: nat)
    requires Inv(s) && ShadowInv(s) && PcOf(s, t) == At(m, Release(b)) && b in s.mem.blocks && !s.mem.blocks[b].primary
    ensures ShadowInv(DoRelease(s, t, m, b))
  {
    hide Inv, AllOf, Placed, Stored, SameAt, BlockShadow, GoodBlocks;
    var s' := DoRelease(s, t, m, b);
    AtOwn(s, t);
    ChunkFacts(s, m);
    ReleasedHome(s, t, m, b);
    ReleaseBlock(s, t, m, b);
    OthersSame(s, s', b, m);
    forall x | x in s'.mem.blocks
      ensures BlockShadow(s', x) && PageShadow(s', x)
    {
      SmallerBlocks(s, s', b, x);
    }
    forall g | 0 <= g < |s'.mem.shadow| && Unowned(s'.mem.blocks, g)
      ensures s'.mem.shadow[g] == 0
    {
      if Touches(s.mem.blocks, b, g) {
        WholeByte(s.mem, b, 0, g);
      } else {
        UnownedGrows(s.mem.blocks, b, g);
        WholeByte(s.mem, b, 0, g);
      }
    }
  }

  /** What painting a block with its header page leaves in each granule. */
  lemma WholeByte(mem: Mem, b: nat, v: nat, g: nat)
    requires b in mem.blocks && g < |mem.shadow|
    ensures |PoisonWhole(mem, b, v)| == |mem.shadow|
    ensures PoisonWhole(mem, b, v)[g]
      == if Touches(mem.blocks, b, g) && (mem.canPoison || v == 0) then v else mem.shadow[g]
  {
  }

  lemma UnownedGrows(blocks: map<nat, Block>, b: nat, g: int)
    requires Unowned(blocks - {b}, g) && !Touches(blocks, b, g)
    ensures Unowned(blocks, g)
  {
    forall c | c in blocks ensures !Touches(blocks, c, g) {
      if c != b { assert c in blocks - {b}; assert !Touches(blocks - {b}, c, g); }
    }
  }

  lemma SmallerBlocks(s: State, s': State, b: nat, x: nat)
    requires GoodBlocks(s.mem.blocks, |s.mem.shadow|) && b in s.mem.blocks && x in s.mem.blocks && x != b
    requires s'.mem.blocks == s.mem.blocks - {b} && s'.mem.partial == s.mem.partial
    requires s'.mem.shadow == PoisonWhole(s.mem, b, 0)
    requires SameAt(s, s', x) && BlockShadow(s, x) && PageShadow(s, x) && (x in s.lined <==> x in s'.lined)
    ensures BlockShadow(s', x) && PageShadow(s', x)
  {
    hide GoodBlocks, BlockShadow, SameAt, Placed, PageShadow;
    var kept := s'.(mem := s'.mem.(blocks := s.mem.blocks));
    SameKept(s, s', kept, x);
    BlockStays(s, kept, b, x);
    OtherPageStays(s, kept, b, x);
    BlocksIrrelevant(kept, s', x);
  }

  lemma SameKept(s: State, s': State, kept: State, x: nat)
    requires SameAt(s, s', x) && kept == s'.(mem := kept.mem)
    ensures SameAt(s, kept, x)
    ensures x in kept.occ && kept.occ[x] in kept.chunks ==> kept.chunks[kept.occ[x]].b == x
  {
  }

  /** A block's shadow condition reads only its own entry of the block map. */
  lemma BlocksIrrelevant(s: State, s': State, x: nat)
    requires s' == s.(mem := s.mem.(blocks := s'.mem.blocks)) && BlockShadow(s, x)
    requires x in s.mem.blocks && x in s'.mem.blocks && s.mem.blocks[x] == s'.mem.blocks[x]
    requires x in s.occ && s.occ[x] in s.chunks ==> s.chunks[s.occ[x]].b == x
    ensures BlockShadow(s', x) && (PageShadow(s, x) ==> PageShadow(s', x))
  {
    hide PartialByte;
    forall g: int
      ensures Owns(s.mem.blocks, x, g) == Owns(s'.mem.blocks, x, g)
      ensures InPage(s.mem.blocks, x, g) == InPage(s'.mem.blocks, x, g)
    {}
  }

  /** A newly mapped block comes out poisoned, or clear while poisoning is off. */
  lemma MapShadow(s: State, b: nat, x: Block)
    requires Inv(s) && ShadowInv(s) && Enabled(s, Map(b, x))
    ensures ShadowInv(DoMap(s, b, x))
  {
    hide Inv, BlockShadow, SameAt, GoodBlocks, BlockOk, PoisonWhole;
    var s' := DoMap(s, b, x);
    MapKeeps(s, b, x);
    BlocksGood(s');
    FreshBlock(s, b, x);
    forall y | y in s'.mem.blocks
      ensures BlockShadow(s', y) && PageShadow(s', y)
    {
      if y == b { MapsNew(s, b, x); } else { MapsOld(s, b, x, y); }
    }
    forall g | 0 <= g < |s'.mem.shadow| && Unowned(s'.mem.blocks, g)
      ensures s'.mem.shadow[g] == 0
    {
      assert !Touches(s'.mem.blocks, b, g);
      WholeByte(s.mem.(blocks := s'.mem.blocks), b, HEAP_LEFT_REDZONE, g);
      UnownedShrinks(s.mem.blocks, b, x, g);
    }
  }

  lemma UnownedShrinks(blocks: map<nat, Block>, b: nat, x: Block, g: int)
    requires b !in blocks && Unowned(blocks[b := x], g)
    ensures Unowned(blocks, g)
  {
    forall c | c in blocks ensures !Touches(blocks, c, g) { assert !Touches(blocks[b := x], c, g); }
  }

  lemma MapsNew(s: State, b: nat, x: Block)
    requires ShadowInv(s) && Enabled(s, Map(b, x)) && b !in s.mem.blocks && b !in s.used && b !in s.occ
    ensures BlockShadow(DoMap(s, b, x), b) && PageShadow(DoMap(s, b, x), b)
  {
    hide BlockShadow, ChunkShadow, PoisonWhole, Enabled;
    var s' := DoMap(s, b, x);
    forall g | 0 <= g < |s'.mem.shadow| && InPage(s'.mem.blocks, b, g)
      ensures s'.mem.shadow[g] == if s.mem.canPoison then HEAP_LEFT_REDZONE else 0
    {
      PageTouches(s'.mem.blocks, b, g);
      NewIsUnowned(s, b, x, g);
      WholeByte(s.mem.(blocks := s'.mem.blocks), b, HEAP_LEFT_REDZONE, g);
    }
    forall g | 0 <= g < |s'.mem.shadow| && Owns(s'.mem.blocks, b, g)
      ensures s'.mem.shadow[g] == if s.mem.canPoison then HEAP_LEFT_REDZONE else 0
    {
      OwnsTouches(s'.mem.blocks, b, g);
      NewIsUnowned(s, b, x, g);
      WholeByte(s.mem.(blocks := s'.mem.blocks), b, HEAP_LEFT_REDZONE, g);
    }
    FreshFree(s', b, s.mem.canPoison);
  }

  lemma FreshFree(s: State, b: nat, on: bool)
    requires b !in s.occ && b !in s.used && (b in s.sound <==> on)
    requires AllOf(s.mem, b, if on then HEAP_LEFT_REDZONE else 0)
    ensures BlockShadow(s, b)
  {
  }

  lemma NewIsUnowned(s: State, b: nat, x: Block, g: int)
    requires Enabled(s, Map(b, x)) && b !in s.mem.blocks && Touches(s.mem.blocks[b := x], b, g)
    ensures Unowned(s.mem.blocks, g)
  {
    forall c | c in s.mem.blocks ensures !Touches(s.mem.blocks, c, g) {
      assert Apart(b, x, c, s.mem.blocks[c]);
    }
  }

  lemma MapsOld(s: State, b: nat, x: Block, y: nat)
    requires Inv(s) && ShadowInv(s) && Enabled(s, Map(b, x)) && y in s.mem.blocks && y != b
    requires GoodBlocks(DoMap(s, b, x).mem.blocks, |s.mem.shadow|)
    ensures BlockShadow(DoMap(s, b, x), y) && PageShadow(DoMap(s, b, x), y)
  {
    hide BlockShadow, PageShadow, GoodBlocks, ChunkShadow, FreeShadow, Enabled, Quiet, PcOk, InQueue, Stored, HeaderFor;
    hide StepFor, Fits;
    var s' := DoMap(s, b, x);
    var s1 := s.(mem := s.mem.(blocks := s'.mem.blocks));
    if y in s.occ { assert ChunkOk(s, s.occ[y]); }
    BlocksIrrelevant(s, s1, y);
    BlockStays(s1, s', b, y);
    OtherPageStays(s1, s', b, y);
  }

  // ------------------------------------------------------ visits of a sweep

  /** With every thread idle a chunk is either live or in the quarantine. */
  lemma IdleStages(s: State, m: nat)
    requires Inv(s) && AllIdle(s) && m in s.chunks
    ensures s.chunks[m].stage.Live? || s.chunks[m].stage.Queued?
  {
    hide Quiet, PcOk, InQueue, Stored, Placed;
    assert ChunkOk(s, m);
  }

  lemma FreeAtStart(s: State, b: nat)
    requires Inv(s) && b in s.mem.blocks && b !in s.occ && s.mem.blocks[b].primary
    ensures ChunkOf(s.mem, b) == b && Inside(s.mem.blocks, b, b)
  {
    hide Inv, BlockOk;
    BlocksGood(s);
    InsideStart(s.mem.blocks, |s.mem.shadow|, b);
    FreeBlockQuiet(s, b, b);
    assert ALLOC_BEG_MAGIC % 0x100 == 0xB9;
  }

  /** A free block is not taken for a chunk in use. */
  lemma FreeLooksFree(s: State, b: nat)
    requires Inv(s) && b in s.mem.blocks && b !in s.occ && s.mem.blocks[b].primary
    ensures !LooksInUse(s.mem, b)
  {
    hide Inv, UsedSize, Load, BlockOk;
    BlocksGood(s);
    InsideStart(s.mem.blocks, |s.mem.shadow|, b);
    FreeBlockQuiet(s, b, b);
    LoadState(s.mem, b);
    assert ALLOC_BEG_MAGIC % 0x100 == 0xB9;
  }

  lemma InsideStart(blocks: map<nat, Block>, granules: nat, b: nat)
    requires GoodBlocks(blocks, granules) && b in blocks
    ensures Inside(blocks, b, b) && BlockOk(b, blocks[b], granules)
  {
    hide Apart;
    assert BlockOk(b, blocks[b], granules);
  }

  /** Exactly the chunks in state ALLOCATED look in use. */
  lemma LiveLooksInUse(s: State, m: nat)
    requires Inv(s) && m in s.chunks && Written(s.chunks[m].stage)
    ensures s.chunks[m].b in s.mem.blocks && ChunkOf(s.mem, s.chunks[m].b) == m
    ensures UsedSize(s.mem, m) == s.chunks[m].size
    ensures LooksInUse(s.mem, s.chunks[m].b) <==> s.chunks[m].stage.Live?
  {
    hide Inv, UsedSize, Load, AllocBeg, ChunkOf, Pack;
    HoldsChunk(s, m);
    var c := s.chunks[m];
    LoadStored(s.mem, m, c);
    MetadataRoundTrip(s.mem, m, c);
    FitsEnd(c.b, s.mem.blocks[c.b].size, m, c.size);
  }

  lemma FitsEnd(b: nat, room: nat, m: nat, size: nat)
    requires Fits(b, room, m, size)
    ensures b < m + HEADER < m + HEADER + size <= b + room
  {
  }

  /** What the sweep leaves in each granule of a chunk in use. */
  lemma RePoisonByte(mem: Mem, m: nat, c: Chunk, g: nat)
    requires Placed(mem.blocks, m, c) && mem.canPoison && g < |mem.shadow|
    requires ChunkOf(mem, c.b) == m && UsedSize(mem, m) == c.size && LooksInUse(mem, c.b)
    ensures |RePoison(mem, c.b).shadow| == |mem.shadow|
    ensures RePoison(mem, c.b).shadow[g] ==
      if !Owns(mem.blocks, c.b, g) || UserGranule(m) <= g < UserGranule(m) + c.size / GRANULE then mem.shadow[g]
      else OpenByte(m, c.size, mem.partial, g)
  {
    hide HeaderFor, StepFor, UsedSize, ChunkOf, LooksInUse, RoundUp, PartialByte;
    FitsEnd(c.b, mem.blocks[c.b].size, m, c.size);
    TailStart(m, c.size);
    if g >= UserGranule(m) + c.size / GRANULE { TailByte(g, UserGranule(m), c.size, mem.partial); }
  }

  /** Where the last granule of user memory starts. */
  lemma TailStart(m: nat, size: nat)
    requires m % 16 == 0
    ensures var end := m + HEADER + size;
      (end - end % GRANULE) / GRANULE == UserGranule(m) + size / GRANULE && end % GRANULE == size % GRANULE
  {
    ModDivides(m, 16, GRANULE);
    AddMultiple(m, HEADER, GRANULE);
    AddMultiple(m + HEADER, size, GRANULE);
    DivMod((m + HEADER + size) / GRANULE, 0, GRANULE);
  }

  /** Counting granules from the last whole one or from the first comes to the same. */
  lemma TailByte(g: nat, u: nat, size: nat, partial: bool)
    requires g >= u + size / GRANULE
    ensures PartialByte(g - (u + size / GRANULE), size % GRANULE, partial, HEAP_LEFT_REDZONE)
         == PartialByte(g - u, size, partial, HEAP_LEFT_REDZONE)
  {
  }

  lemma RePoisonLive(mem: Mem, m: nat, c: Chunk)
    requires Placed(mem.blocks, m, c) && BlockOk(c.b, mem.blocks[c.b], |mem.shadow|) && mem.canPoison
    requires ChunkOf(mem, c.b) == m && UsedSize(mem, m) == c.size && LooksInUse(mem, c.b) && Clear(mem, m, c.size)
    ensures var mem' := RePoison(mem, c.b);
      OnlyShadow(mem, mem', c.b) && Clear(mem', m, c.size) && Open(mem', m, c.b, c.size)
  {
    hide Fits, HeaderFor, StepFor, UsedSize, ChunkOf, LooksInUse, RePoison;
    RePoisonByte(mem, m, c, |mem.shadow| - 1);
    forall g | 0 <= g < |mem.shadow|
      ensures RePoison(mem, c.b).shadow[g] ==
        if !Owns(mem.blocks, c.b, g) || UserGranule(m) <= g < UserGranule(m) + c.size / GRANULE then mem.shadow[g]
        else OpenByte(m, c.size, mem.partial, g)
    {
      RePoisonByte(mem, m, c, g);
    }
  }

  /** Poisoning a whole block. */
  lemma PoisonsAll(mem: Mem, b: nat)
    requires b in mem.blocks && mem.canPoison
    ensures OnlyShadow(mem, PoisonBlock(mem, b), b) && AllOf(PoisonBlock(mem, b), b, HEAP_LEFT_REDZONE)
  {
  }

  /** A visit of a chunk in use paints everything but its whole granules. */
  lemma RePoisonShut(mem: Mem, m: nat, c: Chunk)
    requires Placed(mem.blocks, m, c) && BlockOk(c.b, mem.blocks[c.b], |mem.shadow|) && mem.canPoison
    requires ChunkOf(mem, c.b) == m && UsedSize(mem, m) == c.size && LooksInUse(mem, c.b)
    requires ShutOff(mem, m, c.b, c.size)
    ensures var mem' := RePoison(mem, c.b);
      && OnlyShadow(mem, mem', c.b)
      && (if c.size < GRANULE then Clear(mem', m, c.size) && Open(mem', m, c.b, c.size)
          else ShutOff(mem', m, c.b, c.size))
  {
    hide Fits, HeaderFor, StepFor, UsedSize, ChunkOf, LooksInUse, RePoison;
    var mem' := RePoison(mem, c.b);
    forall g | 0 <= g < |mem.shadow|
      ensures mem'.shadow[g] ==
        if !Owns(mem.blocks, c.b, g) || UserGranule(m) <= g < UserGranule(m) + c.size / GRANULE then mem.shadow[g]
        else OpenByte(m, c.size, mem.partial, g)
    {
      RePoisonByte(mem, m, c, g);
    }
  }

  /** A block whose chunk's metadata is not in memory is not taken for one in use. */
  lemma UnwrittenLooksFree(s: State, m: nat)
    requires Inv(s) && MetaInv(s) && m in s.chunks && !Written(s.chunks[m].stage)
    requires s.chunks[m].b in s.mem.blocks && SizeQueryOk(s.mem, s.chunks[m].b)
    ensures !LooksInUse(s.mem, s.chunks[m].b)
    ensures ChunkOf(s.mem, s.chunks[m].b) == if s.mem.blocks[s.chunks[m].b].primary then s.chunks[m].b else m
  {
    hide Inv, UsedSize, Load, MetaInv;
    var b := s.chunks[m].b;
    ChunkInside(s, m);
    Home(s, m);
    QuietInside(s, m, b);
    QuietInside(s, m, m);
    LoadState(s.mem, b);
    LoadState(s.mem, m);
    MetaHere(s, b);
    assert ALLOC_BEG_MAGIC % 0x100 == 0xB9;
  }

  /** Exactly a block whose chunk is live looks in use. */
  lemma VisitSees(s: State, b: nat)
    requires Inv(s) && MetaInv(s) && Visitable(s, b) && SizeQueryOk(s.mem, b)
    ensures b in s.occ ==> s.occ[b] in s.chunks && s.chunks[s.occ[b]].b == b
    ensures LooksInUse(s.mem, b) <==> b in s.occ && s.chunks[s.occ[b]].stage.Live?
    ensures LooksInUse(s.mem, b) ==>
      ChunkOf(s.mem, b) == s.occ[b] && UsedSize(s.mem, s.occ[b]) == s.chunks[s.occ[b]].size
  {
    hide Inv, MetaInv, LooksInUse, UsedSize, ChunkOf, SizeQueryOk;
    if b in s.occ {
      OccIsChunk(s, b);
      var m := s.occ[b];
      if Written(s.chunks[m].stage) { LiveLooksInUse(s, m); } else { UnwrittenLooksFree(s, m); }
    } else {
      FreeLooksFree(s, b);
    }
  }

  /** Visiting one block gives it the shadow its chunk's state in memory calls
      for, whatever its shadow was and whoever is working on it. */
  lemma RePoisonOne(s: State, b: nat)
    requires Inv(s) && MetaInv(s) && BlockShadow(s, b) && s.mem.canPoison && Visitable(s, b) && SizeQueryOk(s.mem, b)
    ensures OnlyShadow(s.mem, DoVisit(s, b).mem, b) && BlockShadow(DoVisit(s, b), b)
  {
    hide Inv, MetaInv, LooksInUse, UsedSize, ChunkOf, OnlyShadow, AllOf, Open, Clear, Closed, ShutOff, Placed;
    hide SizeQueryOk;
    VisitSees(s, b);
    PoisonsAll(s.mem, b);
    if b in s.occ {
      var m := s.occ[b];
      OccIsChunk(s, b);
      var c := s.chunks[m];
      if !c.stage.Live? {
        AllIsClosed(DoVisit(s, b).mem, m, c);
      } else if m in s.caught {
        RePoisonShut(s.mem, m, c);
      } else {
        RePoisonLive(s.mem, m, c);
      }
    }
  }

  lemma OccIsChunk(s: State, b: nat)
    requires Inv(s) && b in s.occ
    ensures s.occ[b] in s.chunks && s.chunks[s.occ[b]].b == b
    ensures Placed(s.mem.blocks, s.occ[b], s.chunks[s.occ[b]])
    ensures b in s.mem.blocks && BlockOk(b, s.mem.blocks[b], |s.mem.shadow|)
  {
    hide Quiet, PcOk, InQueue, Stored, HeaderFor, StepFor, Fits, BlockOk, Apart;
    assert ChunkOk(s, s.occ[b]);
  }

  lemma AllIsClosed(mem: Mem, m: nat, c: Chunk)
    requires AllOf(mem, c.b, HEAP_LEFT_REDZONE)
    ensures Closed(mem, m, c.b, c.size, false) && ShutOff(mem, m, c.b, c.size)
  {
  }

  lemma VisitShadow(s: State, b: nat)
    requires Inv(s) && MetaInv(s) && ShadowInv(s) && s.mem.canPoison && Visitable(s, b)
    ensures ShadowInv(DoVisit(s, b))
  {
    hide Inv, MetaInv, BlockShadow, SizeQueryOk, SameAt, OnlyShadow, RePoison;
    if SizeQueryOk(s.mem, b) {
      RePoisonOne(s, b);
      var m := if b in s.occ then s.occ[b] else b;
      if b !in s.occ {
        BlocksGood(s);
        InsideStart(s.mem.blocks, |s.mem.shadow|, b);
        FreeBlockQuiet(s, b, b);
      }
      OthersSame(s, DoVisit(s, b), b, m);
      StepInBlock(s, DoVisit(s, b), b);
    } else {
      SettingsIrrelevant(s, DoVisit(s, b));
    }
  }

  // -------------------------------------------------------------------- runs

  lemma MoveShadow(s: State, t: nat)
    requires Inv(s) && ShadowInv(s) && MoveEnabled(s, t)
    ensures ShadowInv(DoMove(s, t))
  {
    hide Inv, ShadowInv, DoFill, DoQuarantine, DoRecycle, DoRelease, Load, Pack;
    AtOwn(s, t);
    match PcOf(s, t)
    case At(m, Fill(b, size, h)) => FillShadow(s, t, m, b, size, h);
    case At(m, Publish) => SameShadow(s, DoPublish(s, t, m), m, s.chunks[m].(stage := Live));
    case At(m, Quarantine) => QuarantineShadow(s, t, m);
    case At(m, Put) => SameShadow(s, DoPut(s, t, m), m, s.chunks[m].(stage := Queued));
    case At(m, Recycle) => RecycleShadow(s, t, m);
    case At(m, Release(b)) =>
      if s.mem.blocks[b].primary { ReleasePrimary(s, t, m, b); } else { ReleaseSecondary(s, t, m, b); }
  }

  lemma EventShadow(s: State, e: Event)
    requires Inv(s) && MetaInv(s) && ShadowInv(s) && Enabled(s, e)
    ensures ShadowInv(Apply(s, e))
  {
    hide Inv, MetaInv, DoMap, DoMalloc, DoMove, DoFree, DoVisit, MallocEnabled, MoveEnabled, BlockShadow;
    match e
    case Map(b, x) => MapShadow(s, b, x);
    case Malloc(_, _, _, _, _, _, _) => MallocShadow(s, e);
    case Move(t) => MoveShadow(s, t);
    case Free(t, p) => FreeShadowKept(s, t, p);
    case Dequeue(t, m) =>
      QueuedIsChunk(s, m);
      SameShadow(s, DoDequeue(s, t, m), m, s.chunks[m].(stage := Busy(t, Recycle)));
    case SetRedzones(lo, hi) => SettingsIrrelevant(s, Apply(s, e));
    case Deactivate => SettingsIrrelevant(s, Apply(s, e));
    case Activate => SettingsIrrelevant(s, Apply(s, e));
    case Visit(b) => VisitShadow(s, b);
  }

  /** Switching poisoning by itself changes nothing the records say. */
  lemma SettingsIrrelevant(s: State, s': State)
    requires ShadowInv(s)
    requires s' == s.(minRz := s'.minRz, maxRz := s'.maxRz, failed := s'.failed,
                      mem := s.mem.(canPoison := s'.mem.canPoison))
    ensures ShadowInv(s')
  {
    hide PartialByte;
    forall b | b in s'.mem.blocks ensures BlockShadow(s', b) && PageShadow(s', b) {
      assert BlockShadow(s, b) && PageShadow(s, b);
    }
  }

  lemma InitialShadow(s: State)
    requires Initial(s)
    ensures Inv(s) && ShadowInv(s)
  {
    InitialInv(s);
  }

  // ------------------------------------------------------ what a sweep puts right

  /** Blocks whose shadow may not be right. */
  function Unsound(s: State): set<nat> { s.mem.blocks.Keys - s.sound }

  /** Those among them that were handed out since they were mapped. */
  function Pending(s: State): set<nat> { s.used - s.sound }

  lemma MoveSound(s: State, t: nat)
    requires MoveEnabled(s, t) && s.mem.canPoison
    ensures Unsound(DoMove(s, t)) <= Unsound(s) && Pending(DoMove(s, t)) <= Pending(s)
  {
    hide UsedSize, AllocBeg, QuarantineChecks, RecycleChecks, FillChunk, SetState, QuarantineChunk;
    hide RecycleChunk, StatsOf, Moved, Unsound, Pending, DoRelease;
    match PcOf(s, t)
    case At(m, Release(b)) => ReleaseSound(s, t, m, b);
    case At(_, _) => SameSound(s, DoMove(s, t));
  }

  lemma SameSound(s: State, s': State)
    requires s'.sound == s.sound && s'.used == s.used && s'.mem.blocks == s.mem.blocks
    ensures Unsound(s') == Unsound(s) && Pending(s') == Pending(s)
  {
  }

  lemma ReleaseSound(s: State, t: nat, m: nat, b: nat)
    requires b in s.mem.blocks
    ensures Unsound(DoRelease(s, t, m, b)) <= Unsound(s) && Pending(DoRelease(s, t, m, b)) <= Pending(s)
  {
    hide PoisonWhole;
  }

  lemma MallocSound(s: State, e: Event)
    requires Inv(s) && ShadowInv(s) && s.mem.canPoison && e.Malloc? && MallocEnabled(s, e)
    ensures Unsound(DoMalloc(s, e)) <= Unsound(s) && Pending(DoMalloc(s, e)) <= Pending(s)
  {
    hide Inv, GoodBlocks, Dirty, ComesClear, NewAddr, NewChunk, AllocateChecks, PlanFor, ChunkShadow, AllOf;
    BlocksGood(s);
    assert BlockShadow(s, e.b);
    DirtyPoisons(s, e.b);
  }

  /** While poisoning is on no step makes a block unsound, and none that is not
      sound is handed out for the first time; a visit makes its block sound. */
  lemma EventSound(s: State, e: Event)
    requires Inv(s) && ShadowInv(s) && Enabled(s, e) && s.mem.canPoison
    ensures Unsound(Apply(s, e)) <= Unsound(s) && Pending(Apply(s, e)) <= Pending(s)
    ensures e.Visit? && !Apply(s, e).failed ==> e.b !in Unsound(Apply(s, e)) && e.b !in Pending(Apply(s, e))
  {
    hide Inv, ShadowInv, DoMalloc, DoMove, MallocEnabled, MoveEnabled, PoisonWhole, SizeQueryOk, RePoison;
    hide SetState, Load;
    match e
    case Malloc(_, _, _, _, _, _, _) => MallocSound(s, e);
    case Move(t) => MoveSound(s, t);
    case _ =>
  }

  // -------------------------------------------------------------- free tags

  /** Every freed chunk carries the free tag. */
  ghost predicate AllTagged(s: State) {
    forall m :: m in s.chunks && UserClosed(s.chunks[m].stage) ==> m in s.tagged
  }

  /** Chunk m moves on; if it is freed now it is tagged now, or was already. */
  lemma TagsKept(s: State, s': State, m: nat)
    requires AllTagged(s) && s.tagged <= s'.tagged + {m}
    requires forall x :: x in s'.chunks && x != m ==> x in s.chunks && s'.chunks[x] == s.chunks[x]
    requires m in s'.chunks && UserClosed(s'.chunks[m].stage) ==> m in s'.tagged
    ensures AllTagged(s')
  {
  }

  lemma AllocTags(s: State, t: nat, m: nat)
    requires AllTagged(s) && m in s.chunks && s.chunks[m].stage.Busy?
    requires PcOf(s, t) == At(m, s.chunks[m].stage.step) && MoveEnabled(s, t)
    requires s.chunks[m].stage.step.Fill? || s.chunks[m].stage.step.Publish?
    ensures AllTagged(DoMove(s, t))
  {
    hide FillChunk, SetState, AllTagged;
    TagsKept(s, DoMove(s, t), m);
  }

  lemma FreeTags(s: State, t: nat, m: nat)
    requires AllTagged(s) && m in s.chunks && s.chunks[m].stage.Busy? && s.mem.canPoison
    requires PcOf(s, t) == At(m, s.chunks[m].stage.step) && MoveEnabled(s, t)
    requires s.chunks[m].stage.step.Quarantine?
    ensures AllTagged(DoMove(s, t))
  {
    hide QuarantineChunk, UsedSize, QuarantineChecks, AllTagged;
    TagsKept(s, DoMove(s, t), m);
  }

  lemma ClosedTags(s: State, t: nat, m: nat)
    requires AllTagged(s) && m in s.chunks && s.chunks[m].stage.Busy?
    requires PcOf(s, t) == At(m, s.chunks[m].stage.step) && MoveEnabled(s, t)
    requires s.chunks[m].stage.step.Put? || s.chunks[m].stage.step.Recycle? || s.chunks[m].stage.step.Release?
    ensures AllTagged(DoMove(s, t))
  {
    hide RecycleChunk, UsedSize, AllocBeg, RecycleChecks, Unmap;
    TagsKept(s, DoMove(s, t), m);
  }

  lemma MoveTags(s: State, t: nat)
    requires Inv(s) && AllTagged(s) && s.mem.canPoison && MoveEnabled(s, t)
    ensures AllTagged(DoMove(s, t))
  {
    hide Inv, DoMove, ChunkOk, GoodBlocks, AllTagged;
    AtOwn(s, t);
    match PcOf(s, t)
    case At(m, Quarantine) => FreeTags(s, t, m);
    case At(m, Fill(_, _, _)) => AllocTags(s, t, m);
    case At(m, Publish) => AllocTags(s, t, m);
    case At(m, _) => ClosedTags(s, t, m);
  }

  /** With poisoning on every step but a visit leaves all freed chunks tagged. */
  lemma EventTags(s: State, e: Event)
    requires Inv(s) && AllTagged(s) && s.mem.canPoison && Enabled(s, e) && !e.Visit?
    ensures AllTagged(Apply(s, e))
  {
    hide Inv, DoMove, MallocEnabled, MoveEnabled, PoisonBlock, Dirty, ComesClear, SetState, Load;
    hide AllocateChecks, NewAddr, PlanFor, MapBlock;
    match e
    case Move(t) => MoveTags(s, t);
    case Free(t, p) =>
      if p >= HEADER && Load(s.mem, p - HEADER).state == ALLOCATED { AllocatedIsLive(s, p - HEADER); }
    case Dequeue(t, m) => QueuedIsChunk(s, m);
    case _ =>
  }

  // ------------------------------------------------------------ shadow bytes

  lemma UnpoisonBytes(sh: seq<nat>, on: bool, partial: bool, user: nat, size: nat)
    requires ShadowBytes(sh)
    ensures ShadowBytes(Unpoison(sh, on, partial, user, size))
  {
  }

  lemma RePoisonBytes(mem: Mem, b: nat)
    requires ShadowBytes(mem.shadow) && b in mem.blocks
    ensures ShadowBytes(RePoison(mem, b).shadow)
  {
    hide UsedSize, ChunkOf, LooksInUse;
  }

  lemma FillBytes(mem: Mem, b: nat, m: nat, size: nat, h: Header)
    requires ShadowBytes(mem.shadow) && b in mem.blocks
    ensures ShadowBytes(FillChunk(mem, b, m, size, h).shadow)
  {
    hide Load, Pack, Unpoison, ShadowBytes;
    UnpoisonBytes(mem.shadow, mem.canPoison, mem.partial, m + HEADER, size);
  }

  lemma FreeBytes(mem: Mem, m: nat, t: nat)
    requires ShadowBytes(mem.shadow)
    ensures ShadowBytes(QuarantineChunk(mem, m, t).shadow) && ShadowBytes(RecycleChunk(mem, m).shadow)
  {
    hide UsedSize, AllocBeg, Load, Pack, RoundUp;
  }

  lemma UnmapBytes(mem: Mem, b: nat)
    requires ShadowBytes(mem.shadow) && b in mem.blocks
    ensures ShadowBytes(Unmap(mem, b).shadow)
  {
  }

  lemma MoveBytes(s: State, t: nat)
    requires ShadowBytes(s.mem.shadow) && MoveEnabled(s, t)
    ensures ShadowBytes(DoMove(s, t).mem.shadow)
  {
    hide UsedSize, AllocBeg, Load, Pack, QuarantineChecks, RecycleChecks, FillChunk, QuarantineChunk, RecycleChunk;
    hide StatsOf, Moved, Unmap, ShadowBytes;
    match PcOf(s, t)
    case At(m, Release(b)) => UnmapBytes(s.mem, b);
    case At(m, Fill(b, size, h)) => FillBytes(s.mem, b, m, size, h);
    case At(m, Recycle) => FreeBytes(s.mem, m, t);
    case At(m, Quarantine) => FreeBytes(s.mem, m, t);
    case At(_, _) =>
  }

  lemma EventBytes(s: State, e: Event)
    requires ShadowBytes(s.mem.shadow) && Enabled(s, e)
    ensures ShadowBytes(Apply(s, e).mem.shadow)
  {
    hide DoMove, MallocEnabled, MoveEnabled, Load, Pack, AllocateChecks, NewAddr, NewChunk, PlanFor, RePoison;
    hide SizeQueryOk;
    match e
    case Move(t) => MoveBytes(s, t);
    case Visit(b) => RePoisonBytes(s.mem, b);
    case _ =>
  }
}
