/** What every step of every thread keeps about chunk metadata: headers, magic
    pairs and secondary metadata always describe the chunk they belong to, every
    chunk is in the hands of at most one thread or in the quarantine exactly
    once, and no CHECK fails. */
module HeapMetadata {
  import opened Wrappers
  import opened ChunkLayout
  import opened Shadow
  import opened HeapMemory
  import opened HeapMachine

  function StateOf(stage: Stage): nat {
    match stage
    case Live => ALLOCATED
    case Queued => QUARANTINE
    case Busy(_, step) => if step.Fill? || step.Publish? || step.Release? then AVAILABLE else QUARANTINE
  }

  /** The chunk's metadata is in memory. */
  predicate Written(stage: Stage) { stage.Busy? ==> !stage.step.Fill? && !stage.step.Release? }

  predicate Filling(stage: Stage) { stage.Busy? && stage.step.Fill? }

  /** Nobody has recorded a free yet. */
  predicate Unfreed(stage: Stage) {
    stage.Live? || (stage.Busy? && (stage.step.Fill? || stage.step.Publish? || stage.step.Quarantine?))
  }

  /** The header as memory should hold it. */
  function Expect(c: Chunk): Header { c.h.(state := StateOf(c.stage), freeTid := c.freeTid) }

  predicate HeaderFor(m: nat, c: Chunk, primary: bool) {
    && FieldsFit(c.h) && c.h.state == AVAILABLE && c.h.freeTid == INVALID_TID && c.h.allocTid != INVALID_TID
    && m + HEADER >= c.b + RZLog2Size(c.h.rzLog)
    && c.h.fromMemalign == (m + HEADER != c.b + RZLog2Size(c.h.rzLog))
    && (c.h.fromMemalign ==> (m + HEADER) % 32 == 0)
    && c.h.userSize == (if primary then c.size else MAX_CLASS_SIZE) && (primary ==> c.size != MAX_CLASS_SIZE)
  }

  predicate StepFor(c: Chunk) {
    && c.freeTid <= INVALID_TID && (c.freeTid == INVALID_TID <==> Unfreed(c.stage))
    && (c.stage.Busy? && c.stage.step.Put? ==> c.freeTid == c.stage.t)
    && (c.stage.Busy? && c.stage.step.Fill? ==> c.stage.step == Fill(c.b, c.size, c.h))
    && (c.stage.Busy? && c.stage.step.Release? ==> c.stage.step == Release(c.b))
  }

  predicate Placed(blocks: map<nat, Block>, m: nat, c: Chunk) {
    && c.b in blocks && Fits(c.b, blocks[c.b].size, m, c.size)
    && HeaderFor(m, c, blocks[c.b].primary) && StepFor(c)
  }

  predicate Stored(mem: Mem, m: nat, c: Chunk) {
    && CellAt(mem, m) == Pack(Expect(c))
    && (c.b != m ==> CellAt(mem, c.b) == (ALLOC_BEG_MAGIC, m))
    && (c.b in mem.blocks && !mem.blocks[c.b].primary ==> c.b in mem.meta && mem.meta[c.b] == (c.size, m))
  }

  predicate ChunkOk(s: State, m: nat)
    requires m in s.chunks
  {
    var c := s.chunks[m];
    && Placed(s.mem.blocks, m, c)
    && c.b in s.occ && s.occ[c.b] == m && c.b in s.used
    && (Written(c.stage) ==> Stored(s.mem, m, c))
    && (c.stage.Busy? ==> PcOf(s, c.stage.t) == At(m, c.stage.step) && c.stage.t < INVALID_TID)
  }

  /** A cell that is no chunk's header reads AVAILABLE, unless it is a live marker. */
  predicate Quiet(s: State, a: nat) {
    || CellAt(s.mem, a).0 % 0x100 == 0
    || (a in s.chunks && Written(s.chunks[a].stage))
    || (&& a in s.occ && s.occ[a] in s.chunks && Written(s.chunks[s.occ[a]].stage)
        && CellAt(s.mem, a).0 == ALLOC_BEG_MAGIC)
  }

  predicate InQueue(s: State, m: nat) { m in s.chunks && s.chunks[m].stage == Queued }

  ghost predicate Inv(s: State) {
    && GoodBlocks(s.mem.blocks, |s.mem.shadow|) && LegalOptions(s.minRz, s.maxRz)
    && (forall m :: m in s.chunks ==> ChunkOk(s, m))
    && (forall b :: b in s.occ ==> s.occ[b] in s.chunks && s.chunks[s.occ[b]].b == b)
    && s.used <= s.mem.blocks.Keys
    && (forall a: nat :: Quiet(s, a))
    && (forall t :: t in s.pcs ==> PcOk(s, t))
    && (forall m: nat :: s.queue[m] == if InQueue(s, m) then 1 else 0)
  }

  predicate PcOk(s: State, t: nat)
    requires t in s.pcs
  {
    s.pcs[t].At? ==> s.pcs[t].m in s.chunks && s.chunks[s.pcs[t].m].stage == Busy(t, s.pcs[t].step)
  }

  // ------------------------------------------------------ metadata round trip

  lemma ExpectFits(m: nat, c: Chunk, primary: bool)
    requires HeaderFor(m, c, primary) && StepFor(c)
    ensures FieldsFit(Expect(c))
  {
  }

  lemma LoadStore(mem: Mem, m: nat, h: Header)
    requires CellAt(mem, m) == Pack(h) && FieldsFit(h)
    ensures Load(mem, m) == h
  {
    hide Unpack, FirstWord, SecondWord;
    UnpackPack(h);
  }

  lemma LoadState(mem: Mem, m: nat)
    ensures Load(mem, m).state == CellAt(mem, m).0 % 0x100
  {
  }

  /** The header reads back as written. */
  lemma LoadStored(mem: Mem, m: nat, c: Chunk)
    requires Placed(mem.blocks, m, c) && Stored(mem, m, c)
    ensures Load(mem, m) == Expect(c)
  {
    hide Pack, RZLog2Size;
    ExpectFits(m, c, mem.blocks[c.b].primary);
    LoadStore(mem, m, Expect(c));
  }

  /** The chunk leads back to its block and to the requested size, whatever the
      state byte and the freeing thread are. */
  lemma ChunkLeadsBack(mem: Mem, m: nat, c: Chunk)
    requires GoodBlocks(mem.blocks, |mem.shadow|) && Placed(mem.blocks, m, c)
    requires Load(mem, m) == c.h.(state := Load(mem, m).state, freeTid := Load(mem, m).freeTid)
    ensures AllocBeg(mem, m) == c.b
    ensures mem.blocks[c.b].primary || (c.b in mem.meta && mem.meta[c.b].0 == c.size) ==> UsedSize(mem, m) == c.size
  {
    hide Load, RZLog2Size, BlockBegin, RoundUp;
    if c.h.fromMemalign { BlockBeginFinds(mem.blocks, |mem.shadow|, c.b, m); }
  }

  /** The chunk leads back to its block and to the requested size, and the block to the chunk. */
  lemma MetadataRoundTrip(mem: Mem, m: nat, c: Chunk)
    requires GoodBlocks(mem.blocks, |mem.shadow|) && Placed(mem.blocks, m, c) && Stored(mem, m, c)
    ensures ChunkOf(mem, c.b) == m
    ensures AllocBeg(mem, m) == c.b
    ensures UsedSize(mem, m) == c.size
  {
    hide Load, FirstWord, SecondWord, RZLog2Size, BlockBegin, RoundUp, AllocBeg, UsedSize;
    LoadStored(mem, m, c);
    ChunkLeadsBack(mem, m, c);
    ExpectFits(m, c, mem.blocks[c.b].primary);
    HeaderIsNotMagic(Expect(c));
  }

  // ------------------------------------------------------------------- frame

  /** Only block b's cells and metadata differ. */
  ghost predicate OnlyBlock(mem: Mem, mem': Mem, b: nat) {
    && mem'.blocks == mem.blocks && |mem'.shadow| == |mem.shadow|
    && mem'.canPoison == mem.canPoison && mem'.partial == mem.partial
    && (forall a: nat :: !Inside(mem.blocks, b, a) ==> CellAt(mem', a) == CellAt(mem, a))
    && (forall x :: x != b ==> (x in mem'.meta <==> x in mem.meta))
    && (forall x :: x != b && x in mem.meta && x in mem'.meta ==> mem'.meta[x] == mem.meta[x])
  }

  lemma OthersStay(mem: Mem, mem': Mem, b: nat, m: nat, c: Chunk)
    requires GoodBlocks(mem.blocks, |mem.shadow|) && OnlyBlock(mem, mem', b) && Placed(mem.blocks, m, c)
    requires b in mem.blocks && c.b != b && Stored(mem, m, c)
    ensures Stored(mem', m, c)
  {
    hide Unpack, FirstWord, SecondWord, RZLog2Size, RoundUp;
    assert Inside(mem.blocks, c.b, m) && Inside(mem.blocks, c.b, c.b);
    assert Apart(b, mem.blocks[b], c.b, mem.blocks[c.b]);
  }

  /** One thread moves one chunk on and writes only inside its block. */
  ghost predicate Advances(s: State, s': State, t: nat, m: nat, c': Chunk) {
    && m in s.chunks && s'.chunks == s.chunks[m := c'] && c'.b == s.chunks[m].b
    && s'.occ == s.occ && s'.used == s.used && s'.minRz == s.minRz && s'.maxRz == s.maxRz
    && OnlyBlock(s.mem, s'.mem, c'.b)
    && (s.chunks[m].stage.Busy? ==> s.chunks[m].stage.t == t)
    && (!s.chunks[m].stage.Busy? ==> PcOf(s, t) == Idle)
    && (c'.stage.Busy? ==> c'.stage.t == t && t < INVALID_TID && s'.pcs == s.pcs[t := At(m, c'.stage.step)])
    && (!c'.stage.Busy? ==> s'.pcs == s.pcs[t := Idle])
    && (forall x: nat :: x != m ==> s'.queue[x] == s.queue[x])
    && s'.queue[m] == (if c'.stage == Queued then 1 else 0)
  }

  lemma AdvanceKeeps(s: State, s': State, t: nat, m: nat, c': Chunk)
    requires Inv(s) && Advances(s, s', t, m, c')
    requires Placed(s'.mem.blocks, m, c') && (Written(c'.stage) ==> Stored(s'.mem, m, c'))
    requires forall a: nat :: Inside(s.mem.blocks, c'.b, a) ==> Quiet(s', a)
    ensures Inv(s')
  {
    hide Quiet, PcOk, InQueue, ChunkOk, Placed, Stored, Written;
    forall x | x in s'.chunks
      ensures ChunkOk(s', x)
    {
      if x != m { OtherChunkOk(s, s', t, m, c', x); } else { OwnChunkOk(s, s', t, m, c'); }
    }
    forall a: nat ensures Quiet(s', a) { StaysQuiet(s, s', t, m, c', a); }
    forall x: nat ensures s'.queue[x] == if InQueue(s', x) then 1 else 0 { StaysQueued(s, s', t, m, c', x); }
    forall u | u in s'.pcs ensures PcOk(s', u) { StaysAt(s, s', t, m, c', u); }
  }

  lemma OwnChunkOk(s: State, s': State, t: nat, m: nat, c': Chunk)
    requires Inv(s) && Advances(s, s', t, m, c')
    requires Placed(s'.mem.blocks, m, c') && (Written(c'.stage) ==> Stored(s'.mem, m, c'))
    ensures ChunkOk(s', m)
  {
    hide Quiet, PcOk, InQueue, Placed, Stored, Written;
    assert ChunkOk(s, m);
  }

  lemma StaysQuiet(s: State, s': State, t: nat, m: nat, c': Chunk, a: nat)
    requires Inv(s) && Advances(s, s', t, m, c')
    requires Inside(s.mem.blocks, c'.b, a) ==> Quiet(s', a)
    ensures Quiet(s', a)
  {
    hide Inside, Stored, PcOk, InQueue, ChunkOk, Placed, GoodBlocks, Written;
    ChunkInside(s, m);
    if !Inside(s.mem.blocks, c'.b, a) {
      assert Quiet(s, a);
      assert CellAt(s'.mem, a) == CellAt(s.mem, a);
    }
  }

  lemma ChunkInside(s: State, m: nat)
    requires Inv(s) && m in s.chunks
    ensures Inside(s.mem.blocks, s.chunks[m].b, m) && Inside(s.mem.blocks, s.chunks[m].b, s.chunks[m].b)
  {
    hide Inside, Quiet, PcOk, InQueue, Stored, Placed;
    assert ChunkOk(s, m);
    InsideOwn(s.mem.blocks, m, s.chunks[m]);
  }

  lemma StaysQueued(s: State, s': State, t: nat, m: nat, c': Chunk, x: nat)
    requires Inv(s) && Advances(s, s', t, m, c')
    ensures s'.queue[x] == if InQueue(s', x) then 1 else 0
  {
    hide Quiet, PcOk, ChunkOk;
    assert s.queue[x] == if InQueue(s, x) then 1 else 0;
  }

  lemma StaysAt(s: State, s': State, t: nat, m: nat, c': Chunk, u: nat)
    requires Inv(s) && Advances(s, s', t, m, c') && u in s'.pcs
    ensures PcOk(s', u)
  {
    hide Quiet, InQueue, ChunkOk;
    if u != t {
      assert PcOk(s, u);
      OtherPcOk(s, t, m, u);
    }
  }

  lemma InsideOwn(blocks: map<nat, Block>, m: nat, c: Chunk)
    requires Placed(blocks, m, c)
    ensures Inside(blocks, c.b, m) && Inside(blocks, c.b, c.b)
  {
    hide RZLog2Size;
  }

  /** Another thread never holds the chunk that thread t moves. */
  lemma OtherPcOk(s: State, t: nat, m: nat, u: nat)
    requires Inv(s) && m in s.chunks && u in s.pcs && u != t
    requires s.chunks[m].stage.Busy? ==> s.chunks[m].stage.t == t
    ensures s.pcs[u].At? ==> s.pcs[u].m != m
  {
    hide Quiet, InQueue, ChunkOk;
    assert PcOk(s, u);
  }

  lemma OtherChunkOk(s: State, s': State, t: nat, m: nat, c': Chunk, x: nat)
    requires Inv(s) && Advances(s, s', t, m, c') && x in s.chunks && x != m
    ensures ChunkOk(s', x)
  {
    hide Unpack, FirstWord, SecondWord, RZLog2Size, RoundUp, Pack, Fits, HeaderFor, StepFor, Stored, Quiet;
    hide PcOk, InQueue;
    var c := s.chunks[x];
    assert ChunkOk(s, x) && ChunkOk(s, m);
    assert c.b != c'.b;
    if Written(c.stage) { OthersStay(s.mem, s'.mem, c'.b, x, c); }
    if c.stage.Busy? {
      assert PcOf(s, c.stage.t) == At(x, c.stage.step);
      assert c.stage.t != t;
    }
  }

  // ------------------------------------------------------- steps of a thread

  /** Inside a chunk's block, only its header and its marker can be loud. */
  lemma QuietInside(s: State, m: nat, a: nat)
    requires Inv(s) && m in s.chunks && Inside(s.mem.blocks, s.chunks[m].b, a)
    ensures a != m && a != s.chunks[m].b ==> CellAt(s.mem, a).0 % 0x100 == 0
    ensures !Written(s.chunks[m].stage) ==> CellAt(s.mem, a).0 % 0x100 == 0
  {
    hide Unpack, FirstWord, SecondWord, RZLog2Size, RoundUp, Stored, PcOk, InQueue, Written;
    assert Quiet(s, a) && ChunkOk(s, m);
    if a in s.chunks {
      assert ChunkOk(s, a);
      InsideOwn(s.mem.blocks, a, s.chunks[a]);
      InsideOne(s.mem.blocks, |s.mem.shadow|, s.chunks[a].b, s.chunks[m].b, a);
    }
    if a in s.occ {
      var x := s.occ[a];
      assert ChunkOk(s, x);
      InsideOwn(s.mem.blocks, x, s.chunks[x]);
      InsideOne(s.mem.blocks, |s.mem.shadow|, a, s.chunks[m].b, a);
    }
  }

  lemma FillKeeps(s: State, t: nat, m: nat, b: nat, size: nat, h: Header)
    requires Inv(s) && PcOf(s, t) == At(m, Fill(b, size, h)) && b in s.mem.blocks
    ensures Inv(DoFill(s, t, m, b, size, h))
  {
    hide Unpack, FirstWord, SecondWord, RZLog2Size, RoundUp, Unpoison, Inv, Load;
    var s' := DoFill(s, t, m, b, size, h);
    AtOwn(s, t);
    var c := s.chunks[m];
    var c' := c.(stage := Busy(t, Publish));
    InsideOwn(s.mem.blocks, m, c);
    QuietInside(s, m, m);
    LoadState(s.mem, m);
    assert h.(state := AVAILABLE) == Expect(c');
    forall a: nat | Inside(s.mem.blocks, c.b, a)
      ensures Quiet(s', a)
    {
      QuietInside(s, m, a);
    }
    AdvanceKeeps(s, s', t, m, c');
  }

  /** A busy thread holds a chunk, at the stage its program counter says. */
  lemma AtOwn(s: State, t: nat)
    requires Inv(s) && PcOf(s, t).At?
    ensures var m := PcOf(s, t).m;
      && m in s.chunks && ChunkOk(s, m) && s.chunks[m].stage == Busy(t, PcOf(s, t).step)
      && !InQueue(s, m) && s.queue[m] == 0 && GoodBlocks(s.mem.blocks, |s.mem.shadow|)
      && t < INVALID_TID && (forall x: nat :: x in s.queue ==> x != m)
  {
    hide Quiet, ChunkOk;
    assert PcOk(s, t);
    assert ChunkOk(s, PcOf(s, t).m);
    assert s.queue[PcOf(s, t).m] == 0;
    BusyInRange(s, PcOf(s, t).m);
  }

  lemma BusyInRange(s: State, m: nat)
    requires Inv(s) && m in s.chunks && s.chunks[m].stage.Busy?
    ensures s.chunks[m].stage.t < INVALID_TID
  {
    hide Quiet, Placed, Stored;
    assert ChunkOk(s, m);
  }

  lemma PublishKeeps(s: State, t: nat, m: nat)
    requires Inv(s) && PcOf(s, t) == At(m, Publish)
    ensures Inv(DoPublish(s, t, m))
  {
    hide Unpack, FirstWord, SecondWord, RZLog2Size, RoundUp, Inv, Load, Pack;
    var s' := DoPublish(s, t, m);
    AtOwn(s, t);
    var c := s.chunks[m];
    LoadStored(s.mem, m, c);
    HeaderChanges(s, s', t, m, c.(stage := Live));
  }

  /** A step that only rewrites the header of its chunk. */
  lemma HeaderChanges(s: State, s': State, t: nat, m: nat, c': Chunk)
    requires Inv(s) && Advances(s, s', t, m, c') && Written(s.chunks[m].stage) && Written(c'.stage)
    requires c' == s.chunks[m].(stage := c'.stage, freeTid := c'.freeTid) && StepFor(c')
    requires s'.mem == Store(s.mem, m, Expect(c')).(shadow := s'.mem.shadow)
    ensures Inv(s')
  {
    hide Unpack, FirstWord, SecondWord, RZLog2Size, RoundUp, Inv, Load, Fits;
    HoldsChunk(s, m);
    forall a: nat | Inside(s.mem.blocks, c'.b, a)
      ensures Quiet(s', a)
    {
      QuietInside(s, m, a);
    }
    AdvanceKeeps(s, s', t, m, c');
  }

  lemma HoldsChunk(s: State, m: nat)
    requires Inv(s) && m in s.chunks
    ensures ChunkOk(s, m) && GoodBlocks(s.mem.blocks, |s.mem.shadow|)
    ensures s.queue[m] == if InQueue(s, m) then 1 else 0
  {
    hide ChunkOk, InQueue;
  }

  /** The thread whose compare-and-exchange succeeds finds a live chunk with
      everything Allocate wrote; every other free leaves the state alone. */
  lemma FreeKeeps(s: State, t: nat, p: nat)
    requires Inv(s) && PcOf(s, t) == Idle && t < INVALID_TID
    ensures Inv(DoFree(s, t, p))
    ensures DoFree(s, t, p) != s ==>
      && p >= HEADER && p - HEADER in s.chunks && s.chunks[p - HEADER].stage == Live
      && Load(s.mem, p - HEADER) == Expect(s.chunks[p - HEADER])
  {
    hide Unpack, FirstWord, SecondWord, RZLog2Size, RoundUp, Inv, Load, Pack;
    if p >= HEADER && Load(s.mem, p - HEADER).state == ALLOCATED {
      var m := p - HEADER;
      AllocatedIsLive(s, m);
      var c := s.chunks[m];
      HoldsChunk(s, m);
      LoadStored(s.mem, m, c);
      HeaderChanges(s, DoFree(s, t, p), t, m, c.(stage := Busy(t, Quarantine)));
    }
  }

  lemma AllocatedIsLive(s: State, m: nat)
    requires Inv(s) && Load(s.mem, m).state == ALLOCATED
    ensures m in s.chunks && s.chunks[m].stage == Live
  {
    hide Unpack, FirstWord, SecondWord, RZLog2Size, RoundUp, Load, Pack, PcOk, InQueue;
    LoadState(s.mem, m);
    assert Quiet(s, m);
    assert ALLOC_BEG_MAGIC % 0x100 == 0xB9;
    assert ChunkOk(s, m);
    LoadStored(s.mem, m, s.chunks[m]);
  }

  lemma QuarantineKeeps(s: State, t: nat, m: nat)
    requires Inv(s) && PcOf(s, t) == At(m, Quarantine)
    ensures Inv(DoQuarantine(s, t, m)) && QuarantineChecks(s.mem, m)
    ensures Load(s.mem, m).state == 3 && Load(s.mem, m).freeTid == 0xff_ffff
  {
    hide RZLog2Size, RoundUp, Inv, Load, Pack, UsedSize, Fits, QuarantineChunk, Stored, HeaderFor, FirstWord;
    hide SecondWord;
    AtOwn(s, t);
    var c := s.chunks[m];
    var c' := c.(stage := Busy(t, Put), freeTid := t);
    LoadStored(s.mem, m, c);
    QuarantinedMemory(s.mem, m, c, t);
    HeaderChanges(s, DoQuarantine(s, t, m), t, m, c');
  }

  lemma QuarantinedMemory(mem: Mem, m: nat, c: Chunk, t: nat)
    requires Placed(mem.blocks, m, c) && Load(mem, m) == Expect(c)
    requires c.stage.Busy? && c.stage.step == Quarantine
    ensures var mem' := QuarantineChunk(mem, m, t);
      && mem' == Store(mem, m, Expect(c.(stage := Busy(t, Put), freeTid := t))).(shadow := mem'.shadow)
      && OnlyBlock(mem, mem', c.b)
  {
    hide RZLog2Size, RoundUp, Load, Pack, UsedSize, HeaderFor;
    InsideOwn(mem.blocks, m, c);
  }

  lemma PutKeeps(s: State, t: nat, m: nat)
    requires Inv(s) && PcOf(s, t) == At(m, Put)
    ensures Inv(DoPut(s, t, m))
  {
    hide Unpack, FirstWord, SecondWord, RZLog2Size, RoundUp, Inv, Load;
    AtOwn(s, t);
    SameMemory(s, DoPut(s, t, m), t, m, s.chunks[m].(stage := Queued));
  }

  lemma DequeueKeeps(s: State, t: nat, m: nat)
    requires Inv(s) && PcOf(s, t) == Idle && t < INVALID_TID && m in s.queue
    ensures Inv(DoDequeue(s, t, m))
  {
    hide Unpack, FirstWord, SecondWord, RZLog2Size, RoundUp, Inv, Load;
    QueuedIsChunk(s, m);
    HoldsChunk(s, m);
    SameMemory(s, DoDequeue(s, t, m), t, m, s.chunks[m].(stage := Busy(t, Recycle)));
  }

  lemma QueuedIsChunk(s: State, m: nat)
    requires Inv(s) && m in s.queue
    ensures m in s.chunks && s.chunks[m].stage == Queued && s.queue[m] == 1
  {
    hide Quiet, ChunkOk, PcOk;
    assert s.queue[m] == if InQueue(s, m) then 1 else 0;
  }

  lemma SameMemory(s: State, s': State, t: nat, m: nat, c': Chunk)
    requires Inv(s) && Advances(s, s', t, m, c') && Written(s.chunks[m].stage) && Written(c'.stage)
    requires c' == s.chunks[m].(stage := c'.stage) && StepFor(c') && s'.mem == s.mem
    requires StateOf(c'.stage) == StateOf(s.chunks[m].stage)
    ensures Inv(s')
  {
    hide Unpack, FirstWord, SecondWord, RZLog2Size, RoundUp, Inv, Load, Fits, Pack;
    HoldsChunk(s, m);
    assert Expect(c') == Expect(s.chunks[m]);
    forall a: nat | Inside(s.mem.blocks, c'.b, a)
      ensures Quiet(s', a)
    {
      QuietInside(s, m, a);
    }
    AdvanceKeeps(s, s', t, m, c');
  }

  /** Recycle's memory, written out for a chunk whose metadata is in place. */
  function Recycled(mem: Mem, m: nat, c: Chunk): Mem {
    var cells1 := mem.cells[m := Pack(Expect(c).(state := AVAILABLE))];
    mem.(cells := if c.b != m then cells1[c.b := (0, m)] else cells1,
         shadow := Poison(mem.shadow, mem.canPoison, m + HEADER, RoundUp(c.size, GRANULE), HEAP_LEFT_REDZONE))
  }

  lemma RecycleIs(mem: Mem, m: nat, c: Chunk)
    requires GoodBlocks(mem.blocks, |mem.shadow|) && Placed(mem.blocks, m, c) && Stored(mem, m, c)
    ensures RecycleChunk(mem, m) == Recycled(mem, m, c)
  {
    hide FirstWord, SecondWord, RZLog2Size, RoundUp, Load, AllocBeg, UsedSize, Fits, Poison, GoodBlocks;
    var h := Expect(c).(state := AVAILABLE);
    var mem1 := Store(mem, m, h);
    LoadStored(mem, m, c);
    ExpectFits(m, c, mem.blocks[c.b].primary);
    LoadStore(mem1, m, h);
    ChunkLeadsBack(mem1, m, c);
    var mem2 := PoisonUser(mem1, m, HEAP_LEFT_REDZONE);
    LoadStore(mem2, m, h);
    ChunkLeadsBack(mem2, m, c);
  }

  /** Recycle leaves the block without a marker and with every cell available. */
  lemma RecycledMemory(mem: Mem, m: nat, c: Chunk)
    requires GoodBlocks(mem.blocks, |mem.shadow|) && Placed(mem.blocks, m, c) && Stored(mem, m, c)
    ensures var mem' := RecycleChunk(mem, m);
      && OnlyBlock(mem, mem', c.b)
      && CellAt(mem', m).0 % 0x100 == 0 && CellAt(mem', c.b).0 % 0x100 == 0
      && forall a: nat :: a != m && a != c.b ==> CellAt(mem', a) == CellAt(mem, a)
  {
    hide FirstWord, SecondWord, RoundUp, RecycleChunk, Fits, HeaderFor, StepFor, GoodBlocks, Stored;
    RecycleIs(mem, m, c);
    ExpectFits(m, c, mem.blocks[c.b].primary);
    FirstWordParts(Expect(c).(state := AVAILABLE));
    InsideOwn(mem.blocks, m, c);
  }

  lemma RecycleKeeps(s: State, t: nat, m: nat)
    requires Inv(s) && PcOf(s, t) == At(m, Recycle)
    ensures Inv(DoRecycle(s, t, m)) && RecycleChecks(s.mem, m)
    ensures Load(s.mem, m).state == 3 && Load(s.mem, m).allocTid != 0xff_ffff && Load(s.mem, m).freeTid != 0xff_ffff
    ensures AllocBeg(s.mem, m) != m ==> CellAt(s.mem, AllocBeg(s.mem, m)) == (0xCC6E96B9, m)
  {
    hide Unpack, FirstWord, SecondWord, RZLog2Size, RoundUp, Inv, Load, Pack, UsedSize, AllocBeg, RecycleChunk, Fits;
    var s' := DoRecycle(s, t, m);
    AtOwn(s, t);
    var c := s.chunks[m];
    LoadStored(s.mem, m, c);
    MetadataRoundTrip(s.mem, m, c);
    RecycledMemory(s.mem, m, c);
    var c' := c.(stage := Busy(t, Release(c.b)));
    forall a: nat | Inside(s.mem.blocks, c.b, a)
      ensures Quiet(s', a)
    {
      QuietInside(s, m, a);
    }
    AdvanceKeeps(s, s', t, m, c');
  }

  /** Thread t gives up chunk m: its block goes back to the raw allocator. */
  ghost predicate Releases(s: State, s': State, t: nat, m: nat, b: nat) {
    && m in s.chunks && s.chunks[m].stage == Busy(t, Release(b)) && b in s.occ && s.occ[b] == m
    && (forall x :: x in s.chunks && x != m ==> s.chunks[x].b != b)
    && s'.chunks == s.chunks - {m} && s'.occ == s.occ - {b} && s'.pcs == s.pcs[t := Idle] && s'.queue == s.queue
    && s'.mem.cells == s.mem.cells && |s'.mem.shadow| == |s.mem.shadow|
    && (forall x :: x in s'.mem.blocks ==> x in s.mem.blocks && s'.mem.blocks[x] == s.mem.blocks[x])
    && (forall x :: x in s.mem.blocks && x != b ==> x in s'.mem.blocks)
    && (forall x :: x in s.mem.meta && x != b ==> x in s'.mem.meta && s'.mem.meta[x] == s.mem.meta[x])
    && (forall x :: x in s'.used ==> x in s.used && x in s'.mem.blocks)
    && (forall x :: x in s.used && x != b ==> x in s'.used)
    && s'.minRz == s.minRz && s'.maxRz == s.maxRz
  }

  lemma ReleaseKeeps(s: State, t: nat, m: nat, b: nat)
    requires Inv(s) && PcOf(s, t) == At(m, Release(b)) && b in s.mem.blocks
    ensures Inv(DoRelease(s, t, m, b))
  {
    hide Quiet, InQueue, PcOk, ChunkOk, Poison;
    ReleasedHome(s, t, m, b);
    ReleasesKeep(s, DoRelease(s, t, m, b), t, m, b);
  }

  lemma ReleasedHome(s: State, t: nat, m: nat, b: nat)
    requires Inv(s) && PcOf(s, t) == At(m, Release(b)) && b in s.mem.blocks
    ensures m in s.chunks && s.chunks[m].stage == Busy(t, Release(b)) && b in s.occ && s.occ[b] == m
    ensures forall x :: x in s.chunks && x != m ==> s.chunks[x].b != b
  {
    hide Quiet, InQueue, Stored, HeaderFor, Fits, PcOk;
    AtOwn(s, t);
    forall x | x in s.chunks && x != m ensures s.chunks[x].b != b { assert ChunkOk(s, x); }
  }

  lemma ReleasesKeep(s: State, s': State, t: nat, m: nat, b: nat)
    requires Inv(s) && Releases(s, s', t, m, b)
    ensures Inv(s')
  {
    hide Quiet, InQueue, PcOk, ChunkOk, Apart, BlockOk;
    forall x | x in s'.chunks ensures ChunkOk(s', x) { ReleaseOther(s, s', t, m, b, x); }
    forall a: nat ensures Quiet(s', a) { ReleaseQuiet(s, s', t, m, b, a); }
    forall u | u in s'.pcs ensures PcOk(s', u) { ReleasePc(s, s', t, m, b, u); }
    forall x: nat ensures s'.queue[x] == if InQueue(s', x) then 1 else 0 { ReleaseQueue(s, s', t, m, b, x); }
  }

  lemma ReleaseOther(s: State, s': State, t: nat, m: nat, b: nat, x: nat)
    requires Inv(s) && Releases(s, s', t, m, b) && x in s'.chunks
    ensures ChunkOk(s', x)
  {
    hide Fits, HeaderFor, StepFor, Pack, PcOk, InQueue, Quiet, Expect, GoodBlocks;
    assert ChunkOk(s, x) && ChunkOk(s, m);
  }

  lemma ReleaseQuiet(s: State, s': State, t: nat, m: nat, b: nat, a: nat)
    requires Inv(s) && Releases(s, s', t, m, b)
    ensures Quiet(s', a)
  {
    hide Stored, Placed, PcOk, InQueue, GoodBlocks;
    assert Quiet(s, a);
    assert ChunkOk(s, m);
  }

  lemma ReleasePc(s: State, s': State, t: nat, m: nat, b: nat, u: nat)
    requires Inv(s) && Releases(s, s', t, m, b) && u in s'.pcs
    ensures PcOk(s', u)
  {
    hide Quiet, ChunkOk, InQueue, GoodBlocks;
    if u != t {
      assert PcOk(s, u);
      OtherPcOk(s, t, m, u);
    }
  }

  lemma ReleaseQueue(s: State, s': State, t: nat, m: nat, b: nat, x: nat)
    requires Inv(s) && Releases(s, s', t, m, b)
    ensures s'.queue[x] == if InQueue(s', x) then 1 else 0
  {
    hide Quiet, ChunkOk, PcOk, GoodBlocks;
    assert s.queue[x] == if InQueue(s, x) then 1 else 0;
  }

  // -------------------------------------------------------------- allocation

  /** The plan's header fits its bit-fields and says where the block starts. */
  lemma NewHeaderFits(e: Event, p: Plan, m: nat, c: Chunk)
    requires e.Malloc? && GoodPlan(p)
    requires e.t < INVALID_TID && e.allocType < 4 && e.lsanTag < 4 && e.context < 0x1_0000_0000
    requires p.primary ==> p.size < MAX_CLASS_SIZE
    requires m + HEADER >= e.b + RZLog2Size(p.rzLog)
    requires m + HEADER != e.b + RZLog2Size(p.rzLog) ==> (m + HEADER) % 32 == 0
    requires c.b == e.b && c.size == p.size && c.h == NewHeader(e, p, m)
    ensures HeaderFor(m, c, p.primary)
  {
    hide RZLog2Size;
  }

  /** Chunk m enters block c.b, held by thread t. */
  ghost predicate Enters(s: State, s': State, t: nat, m: nat, c: Chunk) {
    && Placed(s.mem.blocks, m, c) && c.b !in s.occ && PcOf(s, t) == Idle && t < INVALID_TID
    && c.stage == Busy(t, Fill(c.b, c.size, c.h)) && c.id == |s.log|
    && s'.chunks == s.chunks[m := c] && s'.occ == s.occ[c.b := m] && s'.used == s.used + {c.b}
    && s'.pcs == s.pcs[t := At(m, c.stage.step)] && s'.queue == s.queue
    && s'.mem == s.mem.(shadow := s'.mem.shadow) && |s'.mem.shadow| == |s.mem.shadow|
    && s'.minRz == s.minRz && s'.maxRz == s.maxRz
  }

  /** Allocate's CHECKs hold and its chunk is placed inside the raw block. */
  lemma MallocPlaces(s: State, e: Event)
    requires Inv(s) && e.Malloc? && MallocEnabled(s, e)
    ensures Placed(s.mem.blocks, NewAddr(s, e), NewChunk(s, e)) && AllocateChecks(s.mem, e.b, PlanFor(s, e))
    ensures var p := PlanFor(s, e); var user := NewAddr(s, e) + 16;
      && p.needed % 8 == 0 && user + p.size <= e.b + p.needed && (user == e.b + 16 || e.b + 32 <= user)
      && p.size > 0 && s.mem.blocks[e.b].primary == p.primary
  {
    hide RoundUp, RZLog2Size, NeededSize, MakePlan, PowerOfTwo, Inv, HeaderFor, Fits, AllocateChecks, UserBeg;
    hide NewHeader;
    var p := PlanFor(s, e);
    var size := s.mem.blocks[e.b].size;
    BlocksGood(s);
    assert BlockOk(e.b, s.mem.blocks[e.b], |s.mem.shadow|);
    PlanArithmetic(e.request, e.alignment, s.minRz, s.maxRz);
    PlacementFits(p, e.b, size);
    NewHeaderFits(e, p, NewAddr(s, e), NewChunk(s, e));
    MallocChecks(s.mem, e.b, p);
  }

  lemma MallocEnters(s: State, e: Event)
    requires Inv(s) && e.Malloc? && MallocEnabled(s, e)
    ensures Enters(s, DoMalloc(s, e), e.t, NewAddr(s, e), NewChunk(s, e))
  {
    hide Inv, Placed, AllocateChecks, NewAddr, PlanFor, NewHeader, Poison;
    BlocksGood(s);
    MallocPlaces(s, e);
  }

  lemma BlocksGood(s: State)
    requires Inv(s)
    ensures GoodBlocks(s.mem.blocks, |s.mem.shadow|) && LegalOptions(s.minRz, s.maxRz)
  {
  }

  lemma MallocChecks(mem: Mem, b: nat, p: Plan)
    requires GoodPlan(p) && b in mem.blocks && b % 16 == 0 && mem.blocks[b].size % 16 == 0
    requires p.needed <= mem.blocks[b].size && mem.blocks[b].primary == p.primary
    ensures AllocateChecks(mem, b, p)
    ensures var user := UserBeg(b, p);
      p.needed % 8 == 0 && user + p.size <= b + p.needed && (user == b + 16 || b + 32 <= user) && p.size > 0
  {
    hide RoundUp, RZLog2Size, NeededSize;
    PlacementFits(p, b, mem.blocks[b].size);
  }

  lemma MallocKeeps(s: State, e: Event)
    requires Inv(s) && e.Malloc? && MallocEnabled(s, e)
    ensures Inv(DoMalloc(s, e))
  {
    hide Inv, DoMalloc, MallocEnabled, Enters;
    MallocEnters(s, e);
    EntersKeep(s, DoMalloc(s, e), e.t, NewAddr(s, e), NewChunk(s, e));
  }

  /** Nothing in a free block belongs to any chunk, so all of it reads AVAILABLE. */
  lemma FreeBlockQuiet(s: State, b: nat, a: nat)
    requires Inv(s) && b !in s.occ && Inside(s.mem.blocks, b, a)
    ensures a !in s.chunks && a !in s.occ && CellAt(s.mem, a).0 % 0x100 == 0
  {
    hide Stored, PcOk, InQueue, RZLog2Size, RoundUp;
    assert Quiet(s, a);
    if a in s.chunks {
      assert ChunkOk(s, a);
      InsideOwn(s.mem.blocks, a, s.chunks[a]);
      InsideOne(s.mem.blocks, |s.mem.shadow|, s.chunks[a].b, b, a);
    }
    if a in s.occ {
      var x := s.occ[a];
      assert ChunkOk(s, x);
      InsideOwn(s.mem.blocks, x, s.chunks[x]);
      InsideOne(s.mem.blocks, |s.mem.shadow|, a, b, a);
    }
  }

  lemma EntersKeep(s: State, s': State, t: nat, m: nat, c: Chunk)
    requires Inv(s) && Enters(s, s', t, m, c)
    ensures Inv(s')
  {
    hide Quiet, InQueue, PcOk, ChunkOk, Apart, BlockOk;
    InsideOwn(s.mem.blocks, m, c);
    FreeBlockQuiet(s, c.b, m);
    forall x | x in s'.chunks ensures ChunkOk(s', x) { EnterChunk(s, s', t, m, c, x); }
    forall a: nat ensures Quiet(s', a) { EnterQuiet(s, s', t, m, c, a); }
    forall u | u in s'.pcs ensures PcOk(s', u) { EnterPc(s, s', t, m, c, u); }
    forall x: nat ensures s'.queue[x] == if InQueue(s', x) then 1 else 0 { EnterQueue(s, s', t, m, c, x); }
  }

  lemma EnterChunk(s: State, s': State, t: nat, m: nat, c: Chunk, x: nat)
    requires Inv(s) && Enters(s, s', t, m, c) && x in s'.chunks && m !in s.chunks
    ensures ChunkOk(s', x)
  {
    hide Fits, HeaderFor, Pack, PcOk, InQueue, Quiet, Expect, GoodBlocks;
    if x != m { assert ChunkOk(s, x); }
  }

  lemma EnterQuiet(s: State, s': State, t: nat, m: nat, c: Chunk, a: nat)
    requires Inv(s) && Enters(s, s', t, m, c) && m !in s.chunks
    ensures Quiet(s', a)
  {
    hide Stored, Placed, PcOk, InQueue, GoodBlocks, ChunkOk;
    assert Quiet(s, a);
  }

  lemma EnterPc(s: State, s': State, t: nat, m: nat, c: Chunk, u: nat)
    requires Inv(s) && Enters(s, s', t, m, c) && u in s'.pcs && m !in s.chunks
    ensures PcOk(s', u)
  {
    hide Quiet, ChunkOk, InQueue, GoodBlocks, Placed;
    if u != t { assert PcOk(s, u); }
  }

  lemma EnterQueue(s: State, s': State, t: nat, m: nat, c: Chunk, x: nat)
    requires Inv(s) && Enters(s, s', t, m, c) && m !in s.chunks
    ensures s'.queue[x] == if InQueue(s', x) then 1 else 0
  {
    hide Quiet, ChunkOk, PcOk, GoodBlocks, Placed;
    assert s.queue[x] == if InQueue(s, x) then 1 else 0;
  }

  // -------------------------------------------------------------------- runs

  /** Only shadow, options or further blocks change. */
  ghost predicate Widens(s: State, s': State) {
    && s'.mem.cells == s.mem.cells && s'.mem.meta == s.mem.meta
    && s'.chunks == s.chunks && s'.occ == s.occ && s'.used == s.used && s'.pcs == s.pcs && s'.queue == s.queue
    && (forall b :: b in s.mem.blocks ==> b in s'.mem.blocks && s'.mem.blocks[b] == s.mem.blocks[b])
    && GoodBlocks(s'.mem.blocks, |s'.mem.shadow|) && LegalOptions(s'.minRz, s'.maxRz)
  }

  lemma WidensKeep(s: State, s': State)
    requires Inv(s) && Widens(s, s')
    ensures Inv(s')
  {
    hide Fits, HeaderFor, StepFor, Pack, Expect, GoodBlocks;
    forall m | m in s'.chunks ensures ChunkOk(s', m) { assert ChunkOk(s, m); }
    forall a: nat ensures Quiet(s', a) { assert Quiet(s, a); }
    forall t | t in s'.pcs ensures PcOk(s', t) { assert PcOk(s, t); }
    forall m: nat ensures s'.queue[m] == if InQueue(s', m) then 1 else 0 {
      assert s.queue[m] == if InQueue(s, m) then 1 else 0;
    }
  }

  lemma MapKeeps(s: State, b: nat, x: Block)
    requires Inv(s) && Enabled(s, Map(b, x))
    ensures Inv(DoMap(s, b, x))
  {
    hide Quiet, ChunkOk, PcOk, InQueue, PoisonWhole;
    assert b !in s.mem.blocks;
    WidensKeep(s, DoMap(s, b, x));
  }

  lemma MoveKeeps(s: State, t: nat)
    requires Inv(s) && MoveEnabled(s, t)
    ensures Inv(DoMove(s, t))
  {
    hide Inv, DoFill, DoPublish, DoQuarantine, DoPut, DoRecycle, DoRelease;
    match PcOf(s, t)
    case At(m, Fill(b, size, h)) => FillKeeps(s, t, m, b, size, h);
    case At(m, Publish) => PublishKeeps(s, t, m);
    case At(m, Quarantine) => QuarantineKeeps(s, t, m);
    case At(m, Put) => PutKeeps(s, t, m);
    case At(m, Recycle) => RecycleKeeps(s, t, m);
    case At(m, Release(b)) => ReleaseKeeps(s, t, m, b);
  }

  /** A visit writes shadow only. */
  lemma VisitKeeps(s: State, b: nat)
    requires Inv(s) && b in s.mem.blocks
    ensures Inv(DoVisit(s, b))
  {
    hide Inv, DoVisit;
    BlocksGood(s);
    WidensKeep(s, DoVisit(s, b));
  }

  lemma OptionsKeep(s: State, s': State)
    requires Inv(s) && LegalOptions(s'.minRz, s'.maxRz)
    requires s' == s.(minRz := s'.minRz, maxRz := s'.maxRz, mem := s.mem.(canPoison := s'.mem.canPoison))
    ensures Inv(s')
  {
    hide Inv, GoodBlocks;
    BlocksGood(s);
    WidensKeep(s, s');
  }

  lemma EventKeeps(s: State, e: Event)
    requires Inv(s) && Enabled(s, e)
    ensures Inv(Apply(s, e))
  {
    hide DoMap, DoMalloc, DoMove, DoFree, DoDequeue, DoVisit, MallocEnabled, MoveEnabled, Inv;
    match e
    case Map(b, x) => MapKeeps(s, b, x);
    case Malloc(_, _, _, _, _, _, _) => MallocKeeps(s, e);
    case Move(t) => MoveKeeps(s, t);
    case Free(t, p) => FreeKeeps(s, t, p);
    case Dequeue(t, m) => DequeueKeeps(s, t, m);
    case SetRedzones(lo, hi) => OptionsKeep(s, Apply(s, e));
    case Deactivate =>
      BlocksGood(s);
      OptionsKeep(s, Apply(s, e));
    case Activate =>
      BlocksGood(s);
      OptionsKeep(s, Apply(s, e));
    case Visit(b) => VisitKeeps(s, b);
  }

  /** The only thing that can stop the process is the sweep's size query. */
  lemma EventFails(s: State, e: Event)
    requires Inv(s) && Enabled(s, e)
    ensures Apply(s, e).failed <==> e.Visit? && !SizeQueryOk(s.mem, e.b)
  {
    hide Inv, MallocEnabled, SizeQueryOk, RePoison, MapBlock, QuarantineChecks, RecycleChecks, AllocateChecks;
    hide NewAddr, NewChunk;
    hide UsedSize, AllocBeg, Load, FillChunk, SetState, QuarantineChunk, RecycleChunk, PoisonBlock, Dirty, Unmap;
    match e
    case Malloc(_, _, _, _, _, _, _) => MallocPlaces(s, e);
    case Move(t) =>
      if PcOf(s, t).step.Quarantine? { QuarantineKeeps(s, t, PcOf(s, t).m); }
      if PcOf(s, t).step.Recycle? { RecycleKeeps(s, t, PcOf(s, t).m); }
    case _ =>
  }

  /** A thread in the middle of an operation can always take its next step. */
  lemma NeverStuck(s: State, t: nat)
    requires Inv(s) && PcOf(s, t).At?
    ensures MoveEnabled(s, t)
  {
    hide Quiet, InQueue, Stored, HeaderFor, Fits, PcOk;
    AtOwn(s, t);
  }

  lemma InitialInv(s: State)
    requires Initial(s)
    ensures Inv(s)
  {
  }

  // -------------------------------------------------------- secondary metadata

  /** Block b of the secondary allocator has had its metadata written. */
  predicate Recorded(s: State, b: nat) {
    && b in s.occ && s.occ[b] in s.chunks && b in s.mem.blocks && !s.mem.blocks[b].primary
    && !Filling(s.chunks[s.occ[b]].stage)
  }

  /** The secondary metadata of b is there exactly then, and describes its chunk. */
  predicate MetaAt(s: State, b: nat) {
    && (b in s.mem.meta <==> Recorded(s, b))
    && (Recorded(s, b) ==> b in s.mem.meta && s.mem.meta[b] == (s.chunks[s.occ[b]].size, s.occ[b]))
  }

  ghost predicate MetaInv(s: State) { forall b: nat :: MetaAt(s, b) }

  /** Chunk m of block b0 moves; all that concerns other blocks stays. */
  ghost predicate MetaApart(s: State, s': State, b0: nat, m: nat) {
    && (forall b :: b != b0 ==> (b in s.mem.meta <==> b in s'.mem.meta))
    && (forall b :: b != b0 && b in s.mem.meta && b in s'.mem.meta ==> s'.mem.meta[b] == s.mem.meta[b])
    && (forall b :: b != b0 ==> (b in s.occ <==> b in s'.occ) && (b in s.mem.blocks <==> b in s'.mem.blocks))
    && (forall b :: b != b0 && b in s.occ && b in s'.occ ==> s'.occ[b] == s.occ[b] && s.occ[b] != m)
    && (forall b :: b != b0 && b in s.mem.blocks && b in s'.mem.blocks ==> s'.mem.blocks[b] == s.mem.blocks[b])
    && (forall x :: x != m ==> (x in s.chunks <==> x in s'.chunks))
    && (forall x :: x != m && x in s.chunks && x in s'.chunks ==> s'.chunks[x] == s.chunks[x])
  }

  lemma MetaStep(s: State, s': State, b0: nat, m: nat)
    requires MetaInv(s) && MetaApart(s, s', b0, m) && MetaAt(s', b0)
    ensures MetaInv(s')
  {
    forall b: nat ensures MetaAt(s', b) {
      assert MetaAt(s, b);
    }
  }

  /** No other block leads to chunk m. */
  lemma OnlyHome(s: State, m: nat, b: nat)
    requires Inv(s) && m in s.chunks && b in s.occ && b != s.chunks[m].b
    ensures s.occ[b] != m && s.chunks[m].b in s.occ && s.occ[s.chunks[m].b] == m
  {
    hide Quiet, PcOk, InQueue, Stored, Placed;
    assert ChunkOk(s, m);
  }

  lemma Home(s: State, m: nat)
    requires Inv(s) && m in s.chunks
    ensures s.chunks[m].b in s.occ && s.occ[s.chunks[m].b] == m && s.chunks[m].b in s.mem.blocks
    ensures forall b :: b in s.occ && b != s.chunks[m].b ==> s.occ[b] != m
  {
    hide Quiet, PcOk, InQueue, Stored, HeaderFor, StepFor, Fits;
    assert ChunkOk(s, m);
    forall b | b in s.occ && b != s.chunks[m].b ensures s.occ[b] != m { OnlyHome(s, m, b); }
  }

  lemma FillMeta(s: State, t: nat, m: nat, b: nat, size: nat, h: Header)
    requires Inv(s) && MetaInv(s) && PcOf(s, t) == At(m, Fill(b, size, h)) && b in s.mem.blocks
    ensures MetaInv(DoFill(s, t, m, b, size, h))
  {
    hide Inv, MetaInv, Unpoison, Load, Pack, GoodBlocks, HeaderFor, Fits, Stored;
    AtOwn(s, t);
    Home(s, m);
    MetaHere(s, b);
    MetaStep(s, DoFill(s, t, m, b, size, h), b, m);
  }

  lemma MetaHere(s: State, b: nat)
    requires MetaInv(s)
    ensures MetaAt(s, b)
  {
  }

  lemma ReleaseMeta(s: State, t: nat, m: nat, b: nat)
    requires Inv(s) && MetaInv(s) && PcOf(s, t) == At(m, Release(b)) && b in s.mem.blocks
    ensures MetaInv(DoRelease(s, t, m, b))
  {
    hide Inv, MetaInv, PoisonWhole;
    ReleasedHome(s, t, m, b);
    ReleaseBlock(s, t, m, b);
    Home(s, m);
    MetaHere(s, b);
    MetaStep(s, DoRelease(s, t, m, b), b, m);
  }

  lemma ReleaseBlock(s: State, t: nat, m: nat, b: nat)
    requires Inv(s) && m in s.chunks && s.chunks[m].stage == Busy(t, Release(b))
    ensures s.chunks[m].b == b
  {
    hide Quiet, PcOk, InQueue, Stored, HeaderFor, Fits;
    assert ChunkOk(s, m);
  }

  /** A step that changes neither metadata nor whether it should be there. */
  lemma SameMeta(s: State, s': State, m: nat)
    requires Inv(s) && MetaInv(s) && m in s.chunks && m in s'.chunks && s'.chunks == s.chunks[m := s'.chunks[m]]
    requires s'.occ == s.occ && s'.mem.blocks == s.mem.blocks && s'.mem.meta == s.mem.meta
    requires s'.chunks[m].size == s.chunks[m].size
    requires !Filling(s.chunks[m].stage) && !Filling(s'.chunks[m].stage)
    ensures MetaInv(s')
  {
    hide Inv, MetaInv;
    Home(s, m);
    MetaHere(s, s.chunks[m].b);
    MetaStep(s, s', s.chunks[m].b, m);
  }

  lemma MoveMeta(s: State, t: nat)
    requires Inv(s) && MetaInv(s) && MoveEnabled(s, t)
    ensures MetaInv(DoMove(s, t))
  {
    hide Inv, MetaInv, ChunkOk, GoodBlocks, Load, Pack, UsedSize, AllocBeg, QuarantineChecks, RecycleChecks;
    hide DoFill, DoRelease, StatsOf, Poison, RoundUp;
    AtOwn(s, t);
    match PcOf(s, t)
    case At(m, Fill(b, size, h)) => FillMeta(s, t, m, b, size, h);
    case At(m, Release(b)) => ReleaseMeta(s, t, m, b);
    case At(m, _) => SameMeta(s, DoMove(s, t), m);
  }

  lemma MallocMeta(s: State, e: Event)
    requires Inv(s) && MetaInv(s) && e.Malloc? && MallocEnabled(s, e)
    ensures MetaInv(DoMalloc(s, e))
  {
    hide Inv, MetaInv, Dirty, AllocateChecks, MakePlan, Placed, NewHeader, UserBeg;
    var m := NewAddr(s, e);
    MallocPlaces(s, e);
    InsideOwn(s.mem.blocks, m, NewChunk(s, e));
    FreeBlockQuiet(s, e.b, m);
    MetaHere(s, e.b);
    OccInChunks(s);
    DirtyKeepsMeta(s.mem, e.b);
    MetaStep(s, DoMalloc(s, e), e.b, m);
  }

  lemma DirtyKeepsMeta(mem: Mem, b: nat)
    requires b in mem.blocks
    ensures Dirty(mem, b) == mem.(shadow := Dirty(mem, b).shadow)
  {
  }

  lemma OccInChunks(s: State)
    requires Inv(s)
    ensures forall b :: b in s.occ ==> s.occ[b] in s.chunks && s.chunks[s.occ[b]].b == b
  {
  }

  lemma FreeMeta(s: State, t: nat, p: nat)
    requires Inv(s) && MetaInv(s)
    ensures MetaInv(DoFree(s, t, p))
  {
    hide Inv, MetaInv, Load, Pack;
    if p >= HEADER && Load(s.mem, p - HEADER).state == ALLOCATED {
      AllocatedIsLive(s, p - HEADER);
      SameMeta(s, DoFree(s, t, p), p - HEADER);
    }
  }

  lemma MapMeta(s: State, b: nat, x: Block)
    requires Inv(s) && MetaInv(s) && Enabled(s, Map(b, x))
    ensures MetaInv(DoMap(s, b, x))
  {
    hide Inv, Enabled, PoisonWhole;
    FreshBlock(s, b, x);
    forall y: nat ensures MetaAt(DoMap(s, b, x), y) { assert MetaAt(s, y); }
  }

  lemma FreshBlock(s: State, b: nat, x: Block)
    requires Inv(s) && Enabled(s, Map(b, x))
    ensures b !in s.mem.blocks && b !in s.used && b !in s.occ
  {
    hide Quiet, PcOk, InQueue, Stored, HeaderFor, StepFor, Fits;
    assert b !in s.mem.blocks;
    if b in s.occ { OccInBlocks(s, b); }
  }

  lemma OccInBlocks(s: State, b: nat)
    requires Inv(s) && b in s.occ
    ensures b in s.mem.blocks
  {
    hide Quiet, PcOk, InQueue, Stored, HeaderFor, StepFor, Fits;
    assert ChunkOk(s, s.occ[b]);
  }

  lemma EventMeta(s: State, e: Event)
    requires Inv(s) && MetaInv(s) && Enabled(s, e)
    ensures MetaInv(Apply(s, e))
  {
    hide Inv, DoMap, DoMalloc, DoMove, DoFree, DoVisit, MallocEnabled, MoveEnabled, MetaAt;
    match e
    case Map(b, x) => MapMeta(s, b, x);
    case Malloc(_, _, _, _, _, _, _) => MallocMeta(s, e);
    case Move(t) => MoveMeta(s, t);
    case Free(t, p) => FreeMeta(s, t, p);
    case Dequeue(t, m) =>
      QueuedIsChunk(s, m);
      SameMeta(s, DoDequeue(s, t, m), m);
    case SetRedzones(_, _) => MetaStays(s, Apply(s, e));
    case Deactivate => MetaStays(s, Apply(s, e));
    case Activate => MetaStays(s, Apply(s, e));
    case Visit(_) => MetaStays(s, Apply(s, e));
  }

  lemma MetaStays(s: State, s': State)
    requires MetaInv(s) && s'.occ == s.occ && s'.chunks == s.chunks
    requires s'.mem.blocks == s.mem.blocks && s'.mem.meta == s.mem.meta
    ensures MetaInv(s')
  {
    forall b: nat ensures MetaAt(s', b) { assert MetaAt(s, b); }
  }
}
