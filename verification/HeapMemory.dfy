/** What the heap keeps in memory: chunk headers and magic pairs inside raw
    blocks, the secondary allocator's metadata, and shadow. Every routine of
    the allocator that writes memory is a function from memory to memory. */
module HeapMemory {
  import opened Wrappers
  import opened ChunkLayout
  import opened Shadow

  const PAGE: nat := 4096

  datatype Block = Block(size: nat, primary: bool)

  /** `cells` holds the two words of each 16-aligned address; memory never
      written reads as zero. `meta` is the secondary allocator's per-block pair. */
  datatype Mem = Mem(blocks: map<nat, Block>, cells: map<nat, (nat, nat)>, meta: map<nat, (nat, nat)>,
                     shadow: seq<nat>, canPoison: bool, partial: bool)

  // ---------------------------------------------------------------- headers

  function Pack(h: Header): (nat, nat) { (FirstWord(h), SecondWord(h)) }

  function CellAt(mem: Mem, a: nat): (nat, nat) { if a in mem.cells then mem.cells[a] else (0, 0) }

  function Load(mem: Mem, m: nat): (h: Header)
    ensures h.rzLog < 8
  {
    Unpack(CellAt(mem, m).0, CellAt(mem, m).1)
  }

  function Store(mem: Mem, m: nat, h: Header): Mem { mem.(cells := mem.cells[m := Pack(h)]) }

  // ------------------------------------------------------------- raw blocks

  /** Where the memory of a block begins: a secondary block has its own header
      in the page before it. */
  function Low(b: nat, x: Block): nat { if x.primary || b < PAGE then b else b - PAGE }

  /** The block whose memory begins exactly at an address. */
  function BeginsAt(blocks: map<nat, Block>, a: nat): (r: Option<nat>)
    ensures r.Some? ==> r.value in blocks && Low(r.value, blocks[r.value]) == a
  {
    if a in blocks && Low(a, blocks[a]) == a then Some(a)
    else if a + PAGE in blocks && Low(a + PAGE, blocks[a + PAGE]) == a then Some(a + PAGE)
    else None
  }

  /** The block that begins nearest at or below an address. */
  function Nearest(blocks: map<nat, Block>, a: nat): (r: Option<nat>)
    ensures r.Some? ==> r.value in blocks && Low(r.value, blocks[r.value]) <= a
    ensures r.Some? ==> forall c :: c in blocks && Low(c, blocks[c]) <= a ==>
      Low(c, blocks[c]) <= Low(r.value, blocks[r.value])
    ensures r.None? ==> forall c :: c in blocks ==> a < Low(c, blocks[c])
  {
    var r := BeginsAt(blocks, a);
    if r.Some? then r else if a == 0 then None else Nearest(blocks, a - 1)
  }

  /** GetBlockBegin: the block an address lies in, header page included. */
  function BlockBegin(blocks: map<nat, Block>, a: nat): Option<nat> {
    var r := Nearest(blocks, a);
    if r.Some? && a < r.value + blocks[r.value].size then r else None
  }

  predicate Inside(blocks: map<nat, Block>, b: nat, a: nat) {
    b in blocks && b <= a < b + blocks[b].size
  }

  /** Address a is in the block at b or in its header page. */
  predicate Reaches(blocks: map<nat, Block>, b: nat, a: nat) {
    b in blocks && Low(b, blocks[b]) <= a < b + blocks[b].size
  }

  predicate Apart(b: nat, x: Block, c: nat, y: Block) { b + x.size <= Low(c, y) || c + y.size <= Low(b, x) }

  predicate BlockOk(b: nat, x: Block, granules: nat) {
    && b % 16 == 0 && x.size % 16 == 0 && x.size > 0 && b > 0
    && (b + x.size) / GRANULE <= granules
    && (!x.primary ==> b > PAGE && b % PAGE == 0 && x.size % PAGE == 0)
  }

  ghost predicate GoodBlocks(blocks: map<nat, Block>, granules: nat) {
    && (forall b :: b in blocks ==> BlockOk(b, blocks[b], granules))
    && (forall b, c :: b in blocks && c in blocks && b != c ==> Apart(b, blocks[b], c, blocks[c]))
  }

  lemma InsideOne(blocks: map<nat, Block>, granules: nat, b: nat, c: nat, a: nat)
    requires GoodBlocks(blocks, granules) && Reaches(blocks, b, a) && Reaches(blocks, c, a)
    ensures b == c
  {
    hide BlockOk;
  }

  /** The raw allocator's lookup is right: it answers with the block that the
      address lies in, or whose header page it lies in, and with nothing when
      there is none. */
  lemma BlockBeginFinds(blocks: map<nat, Block>, granules: nat, b: nat, a: nat)
    requires GoodBlocks(blocks, granules)
    ensures BlockBegin(blocks, a) == Some(b) <==> Reaches(blocks, b, a)
  {
    hide GoodBlocks;
    var r := Nearest(blocks, a);
    if Reaches(blocks, b, a) { NearestReaches(blocks, granules, b, a); }
  }

  lemma NearestReaches(blocks: map<nat, Block>, granules: nat, b: nat, a: nat)
    requires GoodBlocks(blocks, granules) && Reaches(blocks, b, a)
    ensures Nearest(blocks, a) == Some(b)
  {
    hide Nearest;
    var r := Nearest(blocks, a).value;
    assert BlockOk(r, blocks[r], granules) && BlockOk(b, blocks[b], granules);
    assert r != b ==> Apart(b, blocks[b], r, blocks[r]);
  }

  predicate AllSecondary(blocks: map<nat, Block>) { forall b :: b in blocks ==> !blocks[b].primary && b > PAGE }

  /** The secondary allocator's scan of its unsorted list of header pages. */
  method FindBlock(headers: seq<nat>, blocks: map<nat, Block>, p: nat) returns (r: Option<nat>)
    requires AllSecondary(blocks) && forall h: nat :: h in headers <==> h + 4096 in blocks
    ensures r == BlockBegin(blocks, p)
  {
    hide Nearest;
    var nearest := 0;
    for i := 0 to |headers|
      invariant nearest <= p && (nearest == 0 || nearest in headers[..i])
      invariant forall k :: 0 <= k < i && headers[k] <= p ==> headers[k] <= nearest
    {
      var header := headers[i];
      if p < header { continue; }
      if p - header < p - nearest { nearest := header; }
    }
    assert nearest != 0 ==> nearest in headers;
    ScanIsNearest(headers, blocks, p, nearest);
    if nearest == 0 || nearest + PAGE + blocks[nearest + PAGE].size <= p { return None; }
    r := Some(nearest + PAGE);
  }

  lemma ScanIsNearest(headers: seq<nat>, blocks: map<nat, Block>, p: nat, nearest: nat)
    requires AllSecondary(blocks) && forall h: nat :: h in headers <==> h + PAGE in blocks
    requires nearest <= p && (nearest == 0 || nearest in headers)
    requires forall k :: 0 <= k < |headers| && headers[k] <= p ==> headers[k] <= nearest
    ensures Nearest(blocks, p) == if nearest == 0 then None else Some(nearest + PAGE)
  {
    hide Nearest;
    forall c | c in blocks && c - PAGE <= p ensures c - PAGE <= nearest {
      assert c - PAGE in headers;
      var k :| 0 <= k < |headers| && headers[k] == c - PAGE;
    }
    if nearest != 0 { assert nearest + PAGE in blocks; }
  }

  function Secondaries(blocks: map<nat, Block>): map<nat, Block> {
    map b | b in blocks && !blocks[b].primary :: blocks[b]
  }

  /** For an address outside every primary block the secondary allocator's own
      lookup gives the answer. */
  lemma LookupSplits(blocks: map<nat, Block>, granules: nat, a: nat)
    requires GoodBlocks(blocks, granules) && forall b :: b in blocks && blocks[b].primary ==> !Inside(blocks, b, a)
    ensures AllSecondary(Secondaries(blocks)) && BlockBegin(Secondaries(blocks), a) == BlockBegin(blocks, a)
  {
    hide BlockBegin;
    var large := Secondaries(blocks);
    assert GoodBlocks(large, granules);
    var r, q := BlockBegin(blocks, a), BlockBegin(large, a);
    if r.Some? {
      BlockBeginFinds(blocks, granules, r.value, a);
      BlockBeginFinds(large, granules, r.value, a);
    } else if q.Some? {
      BlockBeginFinds(large, granules, q.value, a);
      BlockBeginFinds(blocks, granules, q.value, a);
    }
  }

  // ---------------------------------------------------------- chunk queries

  function AllocBeg(mem: Mem, m: nat): nat {
    var h := Load(mem, m);
    if h.fromMemalign then
      var r := BlockBegin(mem.blocks, m);
      if r.Some? then r.value else 0
    else if m + HEADER >= RZLog2Size(h.rzLog) then m + HEADER - RZLog2Size(h.rzLog) else 0
  }

  function UsedSize(mem: Mem, m: nat): nat {
    var h := Load(mem, m);
    if h.userSize != MAX_CLASS_SIZE then h.userSize
    else if AllocBeg(mem, m) in mem.meta then mem.meta[AllocBeg(mem, m)].0 else 0
  }

  /** GetAsanChunk: the chunk of the block that starts at b. */
  function ChunkOf(mem: Mem, b: nat): nat
    requires b in mem.blocks
  {
    if !mem.blocks[b].primary then (if b in mem.meta then mem.meta[b].1 else 0)
    else if CellAt(mem, b).0 == ALLOC_BEG_MAGIC then CellAt(mem, b).1
    else b
  }

  // ---------------------------------------------------------- memory writes

  /** How Allocate clears user memory: whole granules first, then the tail. */
  function Unpoison(sh: seq<nat>, on: bool, partial: bool, user: nat, size: nat): (r: seq<nat>)
    ensures |r| == |sh|
  {
    var whole := size - size % GRANULE;
    var sh1 := Poison(sh, on, user, whole, 0);
    if size != whole && on && (user + whole) / GRANULE < |sh| then
      sh1[(user + whole) / GRANULE := if partial then size % GRANULE else 0]
    else sh1
  }

  /** The metadata and shadow writes of Allocate, all but the last one; the
      state byte keeps what was there. */
  function FillChunk(mem: Mem, b: nat, m: nat, size: nat, h: Header): (r: Mem)
    requires b in mem.blocks
    ensures r.blocks == mem.blocks && r.canPoison == mem.canPoison
  {
    var cells1 := mem.cells[m := Pack(h.(state := Load(mem, m).state))];
    mem.(cells := if b != m then cells1[b := (ALLOC_BEG_MAGIC, m)] else cells1,
         meta := if mem.blocks[b].primary then mem.meta else mem.meta[b := (size, m)],
         shadow := Unpoison(mem.shadow, mem.canPoison, mem.partial, m + HEADER, size))
  }

  function SetState(mem: Mem, m: nat, state: nat): (r: Mem)
    ensures r.blocks == mem.blocks && r.canPoison == mem.canPoison
  {
    Store(mem, m, Load(mem, m).(state := state))
  }

  /** Granules of user memory, as QuarantineChunk and Recycle paint them. */
  function PoisonUser(mem: Mem, m: nat, v: nat): Mem {
    mem.(shadow := Poison(mem.shadow, mem.canPoison, m + HEADER, RoundUp(UsedSize(mem, m), GRANULE), v))
  }

  /** The freeing thread is recorded in the header. */
  function SetFreeTid(mem: Mem, m: nat, tid: nat): Mem { Store(mem, m, Load(mem, m).(freeTid := tid)) }

  function QuarantineChunk(mem: Mem, m: nat, tid: nat): (r: Mem)
    ensures r.blocks == mem.blocks && r.canPoison == mem.canPoison
  {
    PoisonUser(SetFreeTid(mem, m, tid), m, HEAP_FREE)
  }

  predicate QuarantineChecks(mem: Mem, m: nat) {
    Load(mem, m).state == QUARANTINE && Load(mem, m).freeTid == INVALID_TID
  }

  predicate RecycleChecks(mem: Mem, m: nat) {
    && Load(mem, m).state == QUARANTINE
    && Load(mem, m).allocTid != INVALID_TID && Load(mem, m).freeTid != INVALID_TID
    && (AllocBeg(mem, m) != m ==> CellAt(mem, AllocBeg(mem, m)) == (ALLOC_BEG_MAGIC, m))
  }

  function RecycleChunk(mem: Mem, m: nat): (r: Mem)
    ensures r.blocks == mem.blocks && r.canPoison == mem.canPoison
  {
    var mem1 := PoisonUser(SetState(mem, m, AVAILABLE), m, HEAP_LEFT_REDZONE);
    var p := AllocBeg(mem1, m);
    if p != m then mem1.(cells := mem1.cells[p := (0, CellAt(mem1, p).1)]) else mem1
  }

  /** The shadow of a block and of its header page gets one value. */
  function PoisonWhole(mem: Mem, b: nat, v: nat): (r: seq<nat>)
    requires b in mem.blocks
    ensures |r| == |mem.shadow|
  {
    var low := Low(b, mem.blocks[b]);
    Poison(mem.shadow, mem.canPoison, low, b - low + mem.blocks[b].size, v)
  }

  /** OnUnmap of a secondary block. */
  function Unmap(mem: Mem, b: nat): (r: Mem)
    requires b in mem.blocks
    ensures r.canPoison == mem.canPoison
  {
    mem.(blocks := mem.blocks - {b}, meta := mem.meta - {b}, shadow := PoisonWhole(mem, b, 0))
  }

  /** OnMap of new memory that holds the block at b. */
  function MapBlock(mem: Mem, b: nat, x: Block): (r: Mem)
    ensures r.canPoison == mem.canPoison && r.blocks == mem.blocks[b := x]
  {
    var mem1 := mem.(blocks := mem.blocks[b := x]);
    mem1.(shadow := PoisonWhole(mem1, b, HEAP_LEFT_REDZONE))
  }

  /** Poisons the whole of one raw block. */
  function PoisonBlock(mem: Mem, b: nat): (r: Mem)
    requires b in mem.blocks
    ensures r == mem.(shadow := r.shadow)
  {
    mem.(shadow := Poison(mem.shadow, mem.canPoison, b, mem.blocks[b].size, HEAP_LEFT_REDZONE))
  }

  // -------------------------------------------------------------- the sweep

  function PartialAt(sh: seq<nat>, addr: nat, size: nat, redzone: nat, partial: bool, v: nat, g: nat): nat
    requires g < |sh|
  {
    if addr / GRANULE <= g < (addr + redzone) / GRANULE
    then PartialByte(g - addr / GRANULE, size, partial, v) else sh[g]
  }

  /** FastPoisonShadowPartialRightRedzone. */
  function PoisonPartial(sh: seq<nat>, addr: nat, size: nat, redzone: nat, partial: bool, v: nat): (r: seq<nat>)
    ensures |r| == |sh|
    ensures forall g :: 0 <= g < |sh| ==>
      r[g] == if addr / GRANULE <= g < (addr + redzone) / GRANULE
              then PartialByte(g - addr / GRANULE, size, partial, v) else sh[g]
  {
    seq(|sh|, g requires 0 <= g < |sh| => PartialAt(sh, addr, size, redzone, partial, v, g))
  }

  /** What the sweep takes for a chunk in use. */
  predicate LooksInUse(mem: Mem, b: nat)
    requires b in mem.blocks
  {
    var m := ChunkOf(mem, b);
    var end := m + HEADER + UsedSize(mem, m);
    && b < m + HEADER < end <= b + mem.blocks[b].size
    && Load(mem, m).state == ALLOCATED
  }

  /** RePoisonChunk on the block at b. */
  function RePoison(mem: Mem, b: nat): (r: Mem)
    requires b in mem.blocks
    ensures r == mem.(shadow := r.shadow) && |r.shadow| == |mem.shadow|
  {
    if LooksInUse(mem, b) then
      var beg := ChunkOf(mem, b) + HEADER;
      var end := beg + UsedSize(mem, ChunkOf(mem, b));
      var down := end - end % GRANULE;
      var sh := Poison(mem.shadow, mem.canPoison, b, beg - b, HEAP_LEFT_REDZONE);
      mem.(shadow := PoisonPartial(sh, down, end % GRANULE, b + mem.blocks[b].size - down, mem.partial,
                                  HEAP_LEFT_REDZONE))
    else PoisonBlock(mem, b)
  }

  /** The size query inside RePoisonChunk is made on the chunk, not on the
      block. The secondary allocator rejects an address off a page boundary, and
      reads the page below a null chunk if the metadata is not written yet. */
  predicate SizeQueryOk(mem: Mem, b: nat)
    requires b in mem.blocks
  {
    mem.blocks[b].primary || (b in mem.meta && ChunkOf(mem, b) % PAGE == 0)
  }

  function Sweep(mem: Mem, bs: seq<nat>): (r: Mem)
    requires forall b :: b in bs ==> b in mem.blocks
    ensures r == mem.(shadow := r.shadow) && |r.shadow| == |mem.shadow|
  {
    if bs == [] then mem else RePoison(Sweep(mem, bs[..|bs| - 1]), bs[|bs| - 1])
  }
}
