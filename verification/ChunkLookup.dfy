/** From an address to the chunk a report should name. */
module ChunkLookup {
  import opened Wrappers
  import opened ChunkLayout
  import opened HeapMemory
  import opened HeapMachine
  import opened HeapMetadata
  import opened HeapShadow
  import opened HeapSafety

  function Beg(m: nat): nat { m + HEADER }

  function End(mem: Mem, m: nat): nat { Beg(m) + UsedSize(mem, m) }

  predicate AddrIsAtLeft(m: nat, addr: nat) { addr < Beg(m) }

  predicate AddrIsAtRight(mem: Mem, m: nat, addr: nat, accessSize: nat) { addr + accessSize > End(mem, m) }

  predicate AddrIsInside(mem: Mem, m: nat, addr: nat, accessSize: nat) {
    addr >= Beg(m) && addr + accessSize <= End(mem, m)
  }

  /** GetAsanChunkByAddr; below address zero there is nothing, and a secondary
      block without metadata has no chunk yet. */
  function ChunkByAddr(mem: Mem, a: int): Option<nat> {
    if a < 0 then None
    else
      var r := BlockBegin(mem.blocks, a);
      if r.Some? && ChunkOf(mem, r.value) != 0 then Some(ChunkOf(mem, r.value)) else None
  }

  // ------------------------------------------------------ choosing between two

  /** An allocated chunk before a freed one before an available one. */
  function Rank(state: nat): nat { if state == ALLOCATED then 2 else if state == QUARANTINE then 1 else 0 }

  function StateAt(mem: Mem, m: nat): nat { Load(mem, m).state }

  /** ChooseChunk, and whether its CHECKs held. */
  method ChooseChunk(mem: Mem, addr: nat, left: nat, right: nat) returns (m: nat, ok: bool)
    requires AddrIsAtRight(mem, left, addr, 1) && AddrIsAtLeft(right, addr)
    ensures ok && m == Better(mem, addr, left, right) && Chosen(mem, addr, left, right, m)
  {
    ok := true;
    if StateAt(mem, left) != StateAt(mem, right) {
      if StateAt(mem, left) == ALLOCATED { return left, ok; }
      if StateAt(mem, right) == ALLOCATED { return right, ok; }
      if StateAt(mem, left) == QUARANTINE { return left, ok; }
      if StateAt(mem, right) == QUARANTINE { return right, ok; }
    }
    ok := AddrIsAtRight(mem, left, addr, 1) && AddrIsAtLeft(right, addr);
    var l: int, r: int := addr - End(mem, left), Beg(right) - addr;
    m := if l < r then left else right;
  }

  /** The higher rank wins; between equals the nearer, the right one on a tie. */
  function Better(mem: Mem, addr: nat, left: nat, right: nat): nat {
    var p, q := Rank(StateAt(mem, left)), Rank(StateAt(mem, right));
    if p > q || (p == q && addr - End(mem, left) < Beg(right) - addr) then left else right
  }

  /** Which of two chunks is blamed for an address between them: an allocated one
      (state 2) before any other, then a quarantined one (state 3) before the
      rest, otherwise the nearer one, and the right one if they are equally near. */
  predicate Chosen(mem: Mem, addr: nat, left: nat, right: nat, m: nat) {
    var l, r := StateAt(mem, left), StateAt(mem, right);
    && (l == 2 && r != 2 ==> m == left) && (r == 2 && l != 2 ==> m == right)
    && (l != 2 && r != 2 && l == 3 && r != 3 ==> m == left) && (l != 2 && r != 2 && r == 3 && l != 3 ==> m == right)
    && (l == r || (l !in {2, 3} && r !in {2, 3}) ==>
          m == if addr - (left + 16 + UsedSize(mem, left)) < right + 16 - addr then left else right)
  }

  lemma BetterIsChosen(mem: Mem, addr: nat, left: nat, right: nat)
    ensures Chosen(mem, addr, left, right, Better(mem, addr, left, right))
  {
    hide UsedSize, Load;
  }

  // -------------------------------------------------------------- the search

  /** The first lookup to the left, within a page, that gives something else. */
  function FirstOther(mem: Mem, addr: nat, m: nat, l: nat): Option<nat>
    decreases PAGE - l
  {
    if l >= PAGE then Some(m)
    else if ChunkByAddr(mem, addr - l) != Some(m) then ChunkByAddr(mem, addr - l)
    else FirstOther(mem, addr, m, l + 1)
  }

  /** What the lookup answers. */
  function Found(mem: Mem, addr: nat): Option<nat> {
    var m1 := ChunkByAddr(mem, addr);
    if m1.None? || !AddrIsAtLeft(m1.value, addr) then m1
    else
      var m2 := FirstOther(mem, addr, m1.value, 1);
      if m2.Some? && AddrIsAtRight(mem, m2.value, addr, 1) then Some(Better(mem, addr, m2.value, m1.value)) else m1
  }

  method FindHeapChunkByAddress(mem: Mem, addr: nat) returns (r: Option<nat>, ok: bool)
    ensures ok && r == Found(mem, addr)
  {
    hide UsedSize, Load, BlockBegin;
    ok := true;
    var m1 := ChunkByAddr(mem, addr);
    if m1.None? { return m1, ok; }
    r := m1;
    if AddrIsAtLeft(m1.value, addr) {
      var m2: Option<nat> := None;
      var l := 1;
      while l < PAGE
        invariant 1 <= l <= PAGE
        invariant l > 1 ==> m2 == m1
        invariant FirstOther(mem, addr, m1.value, 1) == FirstOther(mem, addr, m1.value, l)
      {
        m2 := ChunkByAddr(mem, addr - l);
        if m2 != m1 { break; }
        l := l + 1;
      }
      assert m2 == FirstOther(mem, addr, m1.value, 1);
      if m2.Some? && AddrIsAtRight(mem, m2.value, addr, 1) {
        var m;
        m, ok := ChooseChunk(mem, addr, m2.value, m1.value);
        r := Some(m);
      }
    }
  }

  // ------------------------------------------- in a heap of well-formed blocks

  /** Block b leads to a chunk inside it. */
  predicate Homed(mem: Mem, b: nat) { b in mem.blocks && Inside(mem.blocks, b, ChunkOf(mem, b)) }

  /** The block that ends where block b begins, or whose memory holds the byte before. */
  function Before(mem: Mem, b: nat): Option<nat>
    requires b in mem.blocks
  {
    var low := Low(b, mem.blocks[b]);
    if low == 0 then None else BlockBegin(mem.blocks, low - 1)
  }

  /** All the lookup needs around block b: its chunk is inside it, and the block
      just before leads to a chunk inside that one, or to none yet. */
  ghost predicate WellFormed(mem: Mem, b: nat) {
    && GoodBlocks(mem.blocks, |mem.shadow|) && Homed(mem, b)
    && (Before(mem, b).Some? ==>
          var c := Before(mem, b).value;
          c in mem.blocks && (Homed(mem, c) || ChunkOf(mem, c) == 0))
  }

  /** Bytes from an address back to the first one that is not block b's. */
  function Back(mem: Mem, b: nat, addr: nat): int
    requires b in mem.blocks
  {
    addr - Low(b, mem.blocks[b]) + 1
  }

  /** The search stops just before the block and its header page: it sees the
      chunk of the block that ends there, or nothing, or runs out of page. */
  lemma {:induction false} SearchStopsAtBlock(mem: Mem, b: nat, addr: nat, l: nat)
    requires WellFormed(mem, b) && Inside(mem.blocks, b, addr) && 1 <= l <= Back(mem, b, addr)
    ensures FirstOther(mem, addr, ChunkOf(mem, b), l) ==
      if Back(mem, b, addr) < PAGE then ChunkByAddr(mem, Low(b, mem.blocks[b]) - 1) else Some(ChunkOf(mem, b))
    decreases Back(mem, b, addr) - l
  {
    hide UsedSize, Load, ChunkOf, BlockBegin, GoodBlocks, Before;
    if l < PAGE {
      if l < Back(mem, b, addr) {
        OwnChunk(mem, b, addr - l);
        SearchStopsAtBlock(mem, b, addr, l + 1);
      } else {
        NeighbourDiffers(mem, b);
      }
    }
  }

  /** Every address of a block, and of its header page, leads to its chunk. */
  lemma OwnChunk(mem: Mem, b: nat, a: nat)
    requires WellFormed(mem, b) && Reaches(mem.blocks, b, a)
    ensures ChunkByAddr(mem, a) == Some(ChunkOf(mem, b))
  {
    hide UsedSize, Load, ChunkOf, BlockBegin, Before;
    BlockBeginFinds(mem.blocks, |mem.shadow|, b, a);
    assert BlockOk(b, mem.blocks[b], |mem.shadow|);
  }

  lemma NeighbourDiffers(mem: Mem, b: nat)
    requires WellFormed(mem, b)
    ensures ChunkByAddr(mem, Low(b, mem.blocks[b]) - 1) != Some(ChunkOf(mem, b))
  {
    hide UsedSize, Load, ChunkOf, GoodBlocks, BlockBegin;
    var low := Low(b, mem.blocks[b]);
    if low > 0 && Before(mem, b).Some? {
      var c := Before(mem, b).value;
      BlockBeginFinds(mem.blocks, |mem.shadow|, c, low - 1);
      if ChunkOf(mem, c) != 0 && ChunkOf(mem, c) == ChunkOf(mem, b) {
        InsideOne(mem.blocks, |mem.shadow|, c, b, ChunkOf(mem, b));
      }
    }
  }

  /** The left neighbour the lookup considers for an address in block b: within a
      page, so never for a secondary block. */
  function Neighbour(mem: Mem, b: nat, addr: nat): Option<nat>
    requires b in mem.blocks
  {
    if Back(mem, b, addr) < PAGE then ChunkByAddr(mem, Low(b, mem.blocks[b]) - 1) else None
  }

  /** An address inside a block gets the block's own chunk, unless it is in the
      left redzone and the chunk ending to the left ranks higher, or ranks the
      same and is nearer. */
  lemma LookupIsBest(mem: Mem, b: nat, addr: nat)
    requires WellFormed(mem, b) && Inside(mem.blocks, b, addr)
    ensures var own := ChunkOf(mem, b); var left := Neighbour(mem, b, addr);
      Found(mem, addr) == Some(
        if AddrIsAtLeft(own, addr) && left.Some? && End(mem, left.value) <= addr
        then Better(mem, addr, left.value, own) else own)
  {
    hide UsedSize, Load, ChunkOf, BlockBegin, GoodBlocks, Better, WellFormed;
    OwnChunk(mem, b, addr);
    if AddrIsAtLeft(ChunkOf(mem, b), addr) { SearchStopsAtBlock(mem, b, addr, 1); }
  }

  /** Nobody ranks above the chunk chosen, and nobody of its rank is nearer. */
  lemma BetterIsBest(mem: Mem, addr: nat, left: nat, right: nat)
    requires AddrIsAtRight(mem, left, addr, 1) && AddrIsAtLeft(right, addr)
    ensures var m := Better(mem, addr, left, right); var other := if m == left then right else left;
      && m in {left, right} && Rank(StateAt(mem, m)) >= Rank(StateAt(mem, other))
      && (Rank(StateAt(mem, m)) == Rank(StateAt(mem, other)) ==> Distance(mem, m, addr) <= Distance(mem, other, addr))
  {
    hide UsedSize, Load;
  }

  /** Bytes between an address and a chunk's user memory. */
  function Distance(mem: Mem, m: nat, addr: nat): int {
    if addr < Beg(m) then Beg(m) - addr else addr - End(mem, m)
  }

  /** In every state a run reaches, whatever is half done: a block leads to a
      chunk inside it, unless it is a secondary block whose metadata is not
      written, and then it leads to none. */
  lemma ReachedIsHomed(s: State, b: nat)
    requires Inv(s) && MetaInv(s) && b in s.mem.blocks
    ensures s.mem.blocks[b].primary || b in s.mem.meta ==> Homed(s.mem, b)
    ensures !s.mem.blocks[b].primary && b !in s.mem.meta ==> ChunkOf(s.mem, b) == 0
  {
    hide Inv, MetaInv, Load, UsedSize, ChunkOf, GoodBlocks, Inside;
    MetaHere(s, b);
    if b in s.occ {
      OccIsChunk(s, b);
      var m := s.occ[b];
      InsideOwn(s.mem.blocks, m, s.chunks[m]);
      if Written(s.chunks[m].stage) { LiveIffAllocated(s, m); } else { UnwrittenHome(s, b, m); }
    } else if s.mem.blocks[b].primary {
      FreeAtStart(s, b);
    } else {
      NoChunkYet(s.mem, b);
    }
  }

  lemma NoChunkYet(mem: Mem, b: nat)
    requires b in mem.blocks && !mem.blocks[b].primary
    ensures ChunkOf(mem, b) == if b in mem.meta then mem.meta[b].1 else 0
  {
  }

  lemma UnwrittenHome(s: State, b: nat, m: nat)
    requires Inv(s) && MetaInv(s) && b in s.mem.blocks && b in s.occ && s.occ[b] == m
    requires m in s.chunks && s.chunks[m].b == b && !Written(s.chunks[m].stage)
    ensures s.mem.blocks[b].primary ==> ChunkOf(s.mem, b) == b
    ensures !s.mem.blocks[b].primary ==> ChunkOf(s.mem, b) == if b in s.mem.meta then m else 0
  {
    hide Inv, MetaInv, Load, UsedSize;
    MetaHere(s, b);
    ChunkInside(s, m);
    QuietInside(s, m, b);
    assert ALLOC_BEG_MAGIC % 0x100 == 0xB9;
  }

  /** So the lookup is right around every block that has a chunk or is free, in
      every state a run reaches. */
  lemma ReachedIsWellFormed(s: State, b: nat)
    requires Inv(s) && MetaInv(s) && b in s.mem.blocks && (s.mem.blocks[b].primary || b in s.mem.meta)
    ensures WellFormed(s.mem, b)
  {
    hide Inv, MetaInv, ChunkOf, GoodBlocks, Inside, BlockBegin, Homed;
    BlocksGood(s);
    ReachedIsHomed(s, b);
    if Before(s.mem, b).Some? {
      BlockBeginFinds(s.mem.blocks, |s.mem.shadow|, Before(s.mem, b).value, Low(b, s.mem.blocks[b]) - 1);
      ReachedIsHomed(s, Before(s.mem, b).value);
    }
  }

  /** A bad access just past an allocated chunk, in the left redzone of the next
      block, is blamed on the allocated chunk unless the next one is allocated
      too, whatever other threads are doing. */
  lemma OverflowIsAttributed(s: State, c: nat, b: nat, addr: nat)
    requires Inv(s) && MetaInv(s) && c in s.mem.blocks && Inside(s.mem.blocks, b, addr)
    requires c + s.mem.blocks[c].size == b && addr - b + 1 < PAGE && AddrIsAtLeft(ChunkOf(s.mem, b), addr)
    requires StateAt(s.mem, ChunkOf(s.mem, c)) == ALLOCATED && StateAt(s.mem, ChunkOf(s.mem, b)) != ALLOCATED
    ensures Found(s.mem, addr) == Some(ChunkOf(s.mem, c))
  {
    hide Inv, MetaInv, Load, UsedSize, ChunkOf, Found, GoodBlocks, Homed, BlockBegin;
    BlocksGood(s);
    AdjacentIsPrimary(s.mem.blocks, |s.mem.shadow|, c, b);
    ReachedIsWellFormed(s, b);
    LookupIsBest(s.mem, b, addr);
    var m := ChunkOf(s.mem, c);
    AllocatedIsLive(s, m);
    AllocatedHome(s, c);
    FitsEnd(c, s.mem.blocks[c].size, m, s.chunks[m].size);
    BlockBeginFinds(s.mem.blocks, |s.mem.shadow|, c, b - 1);
  }

  /** Nothing ends right where a secondary block starts: its header page is there. */
  lemma AdjacentIsPrimary(blocks: map<nat, Block>, granules: nat, c: nat, b: nat)
    requires GoodBlocks(blocks, granules) && c in blocks && b in blocks && c + blocks[c].size == b
    ensures blocks[b].primary
  {
    assert BlockOk(b, blocks[b], granules) && BlockOk(c, blocks[c], granules);
    assert Apart(c, blocks[c], b, blocks[b]);
  }

  lemma AllocatedHome(s: State, c: nat)
    requires Inv(s) && MetaInv(s) && c in s.mem.blocks && StateAt(s.mem, ChunkOf(s.mem, c)) == ALLOCATED
    ensures var m := ChunkOf(s.mem, c);
      && m != 0 && m in s.chunks && s.chunks[m].b == c && Placed(s.mem.blocks, m, s.chunks[m])
      && UsedSize(s.mem, m) == s.chunks[m].size
  {
    hide Inv, MetaInv, Load, UsedSize, ChunkOf, Apart, HeaderFor, StepFor;
    var m := ChunkOf(s.mem, c);
    AllocatedIsLive(s, m);
    HoldsChunk(s, m);
    LiveIffAllocated(s, m);
    InsideOwn(s.mem.blocks, m, s.chunks[m]);
    assert BlockOk(s.chunks[m].b, s.mem.blocks[s.chunks[m].b], |s.mem.shadow|);
    ReachedIsHomed(s, c);
    if Homed(s.mem, c) { InsideOne(s.mem.blocks, |s.mem.shadow|, c, s.chunks[m].b, m); }
  }

  // --------------------------------------------------------- access to a chunk

  predicate IsUserByte(mem: Mem, m: nat, a: int) { Beg(m) <= a < End(mem, m) }

  datatype Side = Left | Right | Within | Unknown

  datatype ChunkAccess = ChunkAccess(badAddr: nat, offset: int, side: Side, chunkBegin: nat, chunkSize: nat)

  /** GetAccessToHeapChunkInformation: the first bad byte of the access, and
      how far it is from the chunk. */
  method DescribeAccess(mem: Mem, m: nat, addr: nat, accessSize: nat) returns (d: ChunkAccess)
    ensures d.chunkBegin == Beg(m) && d.chunkSize == UsedSize(mem, m)
    ensures d.side == Within <==> Beg(m) <= addr && addr + accessSize <= End(mem, m)
    ensures d.side == Left <==> addr < Beg(m)
    ensures addr <= d.badAddr && (d.side == Right && accessSize > 0 ==> d.badAddr < addr + accessSize)
    ensures d.side != Within ==> !IsUserByte(mem, m, d.badAddr)
    ensures d.side != Within ==> forall a :: addr <= a < d.badAddr ==> IsUserByte(mem, m, a)
    ensures d.side != Unknown
    ensures d.side == Left ==> d.offset == Beg(m) - d.badAddr
    ensures d.side == Right ==> d.offset == d.badAddr - End(mem, m)
    ensures d.side == Within ==> d.offset == addr - Beg(m)
  {
    hide UsedSize;
    var badAddr, offset, side := addr, 0, Within;
    if AddrIsAtLeft(m, addr) {
      side, offset := Left, Beg(m) - addr;
    } else if AddrIsAtRight(mem, m, addr, accessSize) {
      side, offset := Right, addr - End(mem, m);
      if offset < 0 {
        badAddr := badAddr - offset;
        offset := 0;
      }
    } else if AddrIsInside(mem, m, addr, accessSize) {
      offset := addr - Beg(m);
    } else {
      side := Unknown;
    }
    d := ChunkAccess(badAddr, offset, side, Beg(m), UsedSize(mem, m));
  }
}
