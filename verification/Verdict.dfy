/** How a bad access is named from the shadow byte it hits, and what that name
    says about the heap in every state of every run. */
module Verdict {
  import opened Pow2Math
  import opened ChunkLayout
  import opened Shadow
  import opened HeapMemory
  import opened HeapMachine
  import opened HeapMetadata
  import opened HeapShadow
  import opened HeapAccounts
  import opened HeapSafety

  datatype Bug =
    | UnknownCrash | HeapBufferOverflow | HeapUseAfterFree | StackBufferUnderflow | InitializationOrderFiasco
    | StackBufferOverflow | StackUseAfterReturn | UseAfterPoison | ContainerOverflow | StackUseAfterScope
    | GlobalBufferOverflow | IntraObjectOverflow | DynamicStackBufferOverflow

  function Describe(v: nat): Bug {
    if v == HEAP_LEFT_REDZONE || v == 0xac then HeapBufferOverflow
    else if v == HEAP_FREE then HeapUseAfterFree
    else if v == 0xf1 then StackBufferUnderflow
    else if v == 0xf6 then InitializationOrderFiasco
    else if v == 0xf2 || v == 0xf3 then StackBufferOverflow
    else if v == AFTER_RETURN then StackUseAfterReturn
    else if v == 0xf7 then UseAfterPoison
    else if v == 0xfc then ContainerOverflow
    else if v == 0xf8 then StackUseAfterScope
    else if v == 0xf9 then GlobalBufferOverflow
    else if v == 0xbb then IntraObjectOverflow
    else if v == 0xca || v == 0xcb then DynamicStackBufferOverflow
    else UnknownCrash
  }

  /** The shadow bytes that stand for a bug. */
  predicate Names(bug: Bug, v: nat) {
    match bug
    case HeapBufferOverflow => v in {0xfa, 0xac}
    case HeapUseAfterFree => v == 0xfd
    case StackBufferUnderflow => v == 0xf1
    case StackBufferOverflow => v in {0xf2, 0xf3}
    case StackUseAfterReturn => v == 0xf5
    case InitializationOrderFiasco => v == 0xf6
    case UseAfterPoison => v == 0xf7
    case StackUseAfterScope => v == 0xf8
    case GlobalBufferOverflow => v == 0xf9
    case ContainerOverflow => v == 0xfc
    case IntraObjectOverflow => v == 0xbb
    case DynamicStackBufferOverflow => v in {0xca, 0xcb}
    case UnknownCrash =>
      v !in {0xac, 0xbb, 0xca, 0xcb, 0xf1, 0xf2, 0xf3, 0xf5, 0xf6, 0xf7, 0xf8, 0xf9, 0xfa, 0xfc, 0xfd}
  }

  /** Every shadow byte has exactly one name. */
  lemma NamedOnce(v: nat, bug: Bug)
    ensures Names(bug, v) <==> bug == Describe(v)
  {
  }

  /** Shadow past the modelled heap reads as clear. */
  function ByteAt(sh: seq<nat>, g: nat): nat { if g < |sh| then sh[g] else 0 }

  function DecidingGranule(sh: seq<nat>, addr: nat, accessSize: nat): nat {
    var g := addr / GRANULE;
    var g1 := if ByteAt(sh, g) == 0 && accessSize > GRANULE then g + 1 else g;
    if 0 < ByteAt(sh, g1) < 128 then g1 + 1 else g1
  }

  function VerdictOf(sh: seq<nat>, addr: nat, accessSize: nat): Bug {
    if accessSize == 0 || addr / GRANULE >= |sh| then UnknownCrash
    else Describe(ByteAt(sh, DecidingGranule(sh, addr, accessSize)))
  }

  /** The first byte of the access that shadow denies. */
  ghost predicate FirstBad(sh: seq<nat>, addr: nat, accessSize: nat, bad: nat) {
    && addr <= bad < addr + accessSize && bad / GRANULE < |sh| && !Addressable(sh, bad)
    && forall x :: addr <= x < bad ==> x / GRANULE < |sh| && Addressable(sh, x)
  }

  /** The granule to blame: the bad byte's own, or the one after a partial granule. */
  function Blamed(sh: seq<nat>, bad: nat): nat {
    if ByteAt(sh, bad / GRANULE) >= 128 then bad / GRANULE else bad / GRANULE + 1
  }

  /** The first bad byte is in the first granule the access touches, or in the
      second for an access of more than eight bytes. */
  predicate InReach(addr: nat, accessSize: nat, bad: nat) {
    bad / GRANULE == addr / GRANULE || (accessSize > GRANULE && bad / GRANULE == addr / GRANULE + 1)
  }

  /** The code looks at the granule to blame exactly when it is in reach. */
  lemma BlamesFirstBadByte(sh: seq<nat>, addr: nat, accessSize: nat, bad: nat)
    requires ShadowBytes(sh) && FirstBad(sh, addr, accessSize, bad)
    ensures DecidingGranule(sh, addr, accessSize) == Blamed(sh, bad) <==> InReach(addr, accessSize, bad)
  {
    DivMono(addr, bad, GRANULE);
    if bad / GRANULE > addr / GRANULE {
      ClearBefore(sh, addr, accessSize, bad, addr);
      if bad / GRANULE > addr / GRANULE + 1 {
        AddMultiple(GRANULE, addr, GRANULE);
        ClearBefore(sh, addr, accessSize, bad, addr + GRANULE);
      }
    }
  }

  /** Granules before the first bad byte's are clear. */
  lemma ClearBefore(sh: seq<nat>, addr: nat, accessSize: nat, bad: nat, x: nat)
    requires ShadowBytes(sh) && FirstBad(sh, addr, accessSize, bad) && addr <= x && x / GRANULE < bad / GRANULE
    ensures sh[x / GRANULE] == 0
  {
    GranuleEnd(x, bad);
    assert Addressable(sh, x - x % GRANULE + 7);
  }

  /** The last byte of a granule comes before any byte of a later one. */
  lemma GranuleEnd(addr: nat, bad: nat)
    requires addr / GRANULE < bad / GRANULE
    ensures var last := addr - addr % GRANULE + 7;
      addr <= last < bad && last / GRANULE == addr / GRANULE && last % GRANULE == 7
  {
    var g := addr / GRANULE;
    DivMod(g, 7, GRANULE);
  }

  /** The constructor's decision, stepping the shadow address. It names the
      shadow byte to blame for the first bad byte whenever that is in reach. */
  method Classify(sh: seq<nat>, addr: nat, accessSize: nat) returns (bug: Bug)
    ensures accessSize == 0 || addr / GRANULE >= |sh| ==> bug == UnknownCrash
    ensures ShadowBytes(sh) ==> forall bad :: FirstBad(sh, addr, accessSize, bad) && InReach(addr, accessSize, bad) ==>
      Names(bug, ByteAt(sh, Blamed(sh, bad)))
    ensures bug == VerdictOf(sh, addr, accessSize)
  {
    bug := UnknownCrash;
    if accessSize != 0 && addr / GRANULE < |sh| {
      var g := addr / GRANULE;
      if ByteAt(sh, g) == 0 && accessSize > GRANULE { g := g + 1; }
      if ByteAt(sh, g) > 0 && ByteAt(sh, g) < 128 { g := g + 1; }
      bug := Describe(ByteAt(sh, g));
    }
    hide Blamed, InReach, Describe, Names;
    if ShadowBytes(sh) {
      forall bad | FirstBad(sh, addr, accessSize, bad) && InReach(addr, accessSize, bad)
        ensures Names(bug, ByteAt(sh, Blamed(sh, bad)))
      {
        NamedOnce(ByteAt(sh, Blamed(sh, bad)), bug);
        BlamesFirstBadByte(sh, addr, accessSize, bad);
        DivMono(addr, bad, GRANULE);
      }
    }
  }

  /** In every state of every run the code blames the right granule for the
      first bad byte of an access, exactly when that granule is in reach. */
  lemma RunsBlameFirstBadByte(s: State, es: seq<Event>, addr: nat, accessSize: nat, bad: nat)
    requires Initial(s) && CanRun(s, es) && FirstBad(Exec(s, es).mem.shadow, addr, accessSize, bad)
    ensures var sh := Exec(s, es).mem.shadow;
      DecidingGranule(sh, addr, accessSize) == Blamed(sh, bad) <==> InReach(addr, accessSize, bad)
  {
    hide CanRun, Exec, Inv, MetaInv, ShadowInv, LogInv, Balanced, FirstBad, DecidingGranule, Blamed, InReach;
    hide ShadowBytes;
    Reached(s, es);
    BlamesFirstBadByte(Exec(s, es).mem.shadow, addr, accessSize, bad);
  }

  /** A byte whose shadow is a tag decides by itself. */
  lemma TagDecides(sh: seq<nat>, a: nat, accessSize: nat)
    requires accessSize > 0 && a / GRANULE < |sh| && 128 <= sh[a / GRANULE]
    ensures VerdictOf(sh, a, accessSize) == Describe(sh[a / GRANULE])
  {
    hide Describe;
  }

  // ------------------------------------------------------ any state, any stage

  /** The first granule of every sound block is redzone. */
  lemma FirstGranule(s: State, b: nat)
    requires Inv(s) && ShadowInv(s) && b in s.mem.blocks && b in s.sound
    ensures b / GRANULE < |s.mem.shadow| && s.mem.shadow[b / GRANULE] == HEAP_LEFT_REDZONE
  {
    hide Inv, PartialByte, RoundUp, GoodBlocks;
    BlocksGood(s);
    InsideStart(s.mem.blocks, |s.mem.shadow|, b);
    OwnsByte(s.mem.blocks, |s.mem.shadow|, b, b);
    assert BlockShadow(s, b);
    if b in s.occ {
      OccIsChunk(s, b);
      HeaderBefore(s.mem.blocks, s.occ[b], s.chunks[s.occ[b]]);
    }
  }

  lemma HeaderBefore(blocks: map<nat, Block>, m: nat, c: Chunk)
    requires Placed(blocks, m, c)
    ensures c.b / GRANULE < UserGranule(m)
  {
    hide HeaderFor, StepFor, RoundUp;
  }

  lemma UserSpanOf(m: nat, size: nat, a: nat)
    requires m % 16 == 0 && m + HEADER <= a < m + HEADER + size
    ensures UserSpan(m, size, a / GRANULE)
  {
    var x := a - (m + HEADER);
    ModDivides(m, 16, GRANULE);
    AddMultiple(m, HEADER, GRANULE);
    AddMultiple(m + HEADER, x, GRANULE);
    AddMultiple(GRANULE, x, GRANULE);
    DivMono(GRANULE + x, size + 7, GRANULE);
  }

  lemma BeforeUser(m: nat, a: nat)
    requires m % 16 == 0 && a < m + HEADER
    ensures a / GRANULE < UserGranule(m)
  {
    ModDivides(m, 16, GRANULE);
    AddMultiple(m, HEADER, GRANULE);
    DivBelow(a, (m + HEADER) / GRANULE, GRANULE);
  }

  /** Byte a lies in chunk m's block. */
  lemma InChunkBlock(s: State, m: nat, a: nat)
    requires Inv(s) && ShadowInv(s) && m in s.chunks && s.chunks[m].b <= a < m + HEADER + s.chunks[m].size
    ensures m % 16 == 0 && a / GRANULE < |s.mem.shadow| && Owns(s.mem.blocks, s.chunks[m].b, a / GRANULE)
    ensures ChunkShadow(s.mem, m, s.chunks[m], m in s.tagged, m in s.caught, s.chunks[m].b in s.sound)
  {
    hide Inv, ShadowInv, ChunkShadow, HeaderFor, StepFor, RoundUp, BlockOk, GoodBlocks;
    var c := s.chunks[m];
    ChunkFacts(s, m);
    BlocksGood(s);
    FitsEnd(c.b, s.mem.blocks[c.b].size, m, c.size);
    OwnsByte(s.mem.blocks, |s.mem.shadow|, c.b, a);
  }

  /** In user memory of a freed chunk the verdict follows the chunk's tag. */
  lemma ClosedVerdict(s: State, m: nat, a: nat, accessSize: nat)
    requires Inv(s) && ShadowInv(s) && accessSize > 0 && m in s.chunks && s.chunks[m].b in s.sound
    requires UserClosed(s.chunks[m].stage) && m + HEADER <= a < m + HEADER + s.chunks[m].size
    ensures VerdictOf(s.mem.shadow, a, accessSize) == if m in s.tagged then HeapUseAfterFree else HeapBufferOverflow
  {
    hide Inv, ShadowInv, VerdictOf, UserSpan, Owns;
    BlockBefore(s, m);
    InChunkBlock(s, m, a);
    UserSpanOf(m, s.chunks[m].size, a);
    TagDecides(s.mem.shadow, a, accessSize);
  }

  lemma BlockBefore(s: State, m: nat)
    requires Inv(s) && m in s.chunks
    ensures s.chunks[m].b <= m && s.chunks[m].size >= 1
  {
    hide Inv, Stored, HeaderFor, StepFor, RoundUp;
    HoldsChunk(s, m);
  }

  /** The left redzone of a chunk is a redzone at every stage of its life. */
  lemma LeftVerdict(s: State, m: nat, a: nat, accessSize: nat)
    requires Inv(s) && ShadowInv(s) && accessSize > 0 && m in s.chunks && s.chunks[m].b in s.sound
    requires s.chunks[m].b <= a < m + HEADER
    ensures VerdictOf(s.mem.shadow, a, accessSize) == HeapBufferOverflow
  {
    hide Inv, ShadowInv, VerdictOf, PartialByte, Owns;
    BlockBefore(s, m);
    InChunkBlock(s, m, a);
    BeforeUser(m, a);
    TagDecides(s.mem.shadow, a, accessSize);
  }

  /** Granule-aligned address a is the start of the header page of a block mapped while poisoning was on. */
  predicate StartsLinedPage(s: State, a: nat) {
    a + PAGE in s.mem.blocks && !s.mem.blocks[a + PAGE].primary && a + PAGE in s.lined
  }

  /** Past the end of an open chunk. */
  lemma RightVerdict(s: State, m: nat, a: nat, accessSize: nat)
    requires Inv(s) && ShadowInv(s) && accessSize > 0 && m in s.chunks && s.chunks[m].b in s.sound
    requires UserOpen(s.chunks[m].stage)
    requires Inside(s.mem.blocks, s.chunks[m].b, a) && m + HEADER + s.chunks[m].size <= a
    requires a / GRANULE < |s.mem.shadow| && !Addressable(s.mem.shadow, a)
    requires var next := a - a % GRANULE + GRANULE;
      || Inside(s.mem.blocks, s.chunks[m].b, next) || (next in s.mem.blocks && next in s.sound)
      || StartsLinedPage(s, next)
    ensures VerdictOf(s.mem.shadow, a, accessSize) == HeapBufferOverflow
  {
    hide Inv, ShadowInv, RoundUp, HeaderFor, StepFor;
    var c := s.chunks[m];
    ChunkFacts(s, m);
    BlocksGood(s);
    OwnsByte(s.mem.blocks, |s.mem.shadow|, c.b, a);
    var next := a - a % GRANULE + GRANULE;
    if Inside(s.mem.blocks, c.b, next) {
      OwnsByte(s.mem.blocks, |s.mem.shadow|, c.b, next);
    } else if StartsLinedPage(s, next) {
      PageIsRedzone(s, next + PAGE, next);
    } else {
      FirstGranule(s, next);
    }
  }

  // -------------------------------------------------------------- over runs

  /** In every run and every state, whatever other threads are doing, for a sound
      block: an access that starts in user memory of a quarantined chunk is a use
      after free exactly when the chunk was freed while poisoning was on and no
      sweep has visited it since; otherwise it is named a buffer overflow. */
  lemma QuarantinedVerdict(s: State, es: seq<Event>, m: nat, a: nat, accessSize: nat)
    requires Initial(s) && CanRun(s, es) && accessSize > 0
    requires var f := Exec(s, es);
      && m in f.queue && m + HEADER <= a < m + HEADER + UsedSize(f.mem, m)
      && m in f.chunks && f.chunks[m].b in f.sound
    ensures var f := Exec(s, es);
      && (VerdictOf(f.mem.shadow, a, accessSize) == HeapUseAfterFree <==> m in f.tagged)
      && (VerdictOf(f.mem.shadow, a, accessSize) == HeapBufferOverflow <==> m !in f.tagged)
  {
    hide CanRun, Exec, Inv, MetaInv, ShadowInv, LogInv, Balanced, VerdictOf, UsedSize, ChunkOf, Load;
    var f := Exec(s, es);
    Reached(s, es);
    QueuedIsChunk(f, m);
    LiveIffAllocated(f, m);
    ClosedVerdict(f, m, a, accessSize);
  }

  lemma {:induction false} RunTags(s: State, es: seq<Event>)
    requires Inv(s) && AllTagged(s) && s.mem.canPoison && CanRun(s, es) && NeverOff(es)
    requires forall i :: 0 <= i < |es| ==> !es[i].Visit?
    ensures AllTagged(Exec(s, es))
    decreases |es|
  {
    hide Inv, AllTagged, Enabled, Apply;
    if es != [] {
      assert !es[0].Visit? && !es[0].Deactivate?;
      StaysOn(s, es[0]);
      EventTags(s, es[0]);
      EventKeeps(s, es[0]);
      RunTags(Apply(s, es[0]), es[1..]);
    }
  }

  /** If poisoning was on from the start, never off, and there was no sweep:
      always a use after free, in every block. */
  lemma QuarantinedIsUseAfterFree(s: State, es: seq<Event>, m: nat, a: nat, accessSize: nat)
    requires Initial(s) && s.mem.canPoison && CanRun(s, es) && accessSize > 0
    requires NeverOff(es) && forall i :: 0 <= i < |es| ==> !es[i].Visit?
    requires var f := Exec(s, es); m in f.queue && m + HEADER <= a < m + HEADER + UsedSize(f.mem, m)
    ensures VerdictOf(Exec(s, es).mem.shadow, a, accessSize) == HeapUseAfterFree
  {
    hide CanRun, Exec, Inv, MetaInv, ShadowInv, LogInv, Balanced, VerdictOf, UsedSize, NeverOff;
    var f := Exec(s, es);
    InitialInv(s);
    RunTags(s, es);
    Reached(s, es);
    SoundIfNeverOff(s, es);
    QueuedIsChunk(f, m);
    InBlocks(f, m);
    QuarantinedVerdict(s, es, m, a, accessSize);
  }

  /** A visit paints a quarantined chunk as redzone: from then on its user memory
      is reported as a buffer overflow. */
  lemma SweepLosesTag(s: State, es: seq<Event>, m: nat, a: nat, accessSize: nat)
    requires Initial(s) && CanRun(s, es) && accessSize > 0 && m in Exec(s, es).chunks && m in Exec(s, es).queue
    requires var b := Exec(s, es).chunks[m].b; Enabled(Exec(s, es), Visit(b)) && !OffStart(Exec(s, es).mem, b)
    requires var f := Exec(s, es); m + HEADER <= a < m + HEADER + UsedSize(f.mem, m)
    ensures var f := Exec(s, es); var g := Apply(f, Visit(f.chunks[m].b));
      && !g.failed && g.mem.canPoison && AllOf(g.mem, f.chunks[m].b, HEAP_LEFT_REDZONE)
      && VerdictOf(g.mem.shadow, a, accessSize) == HeapBufferOverflow
  {
    hide CanRun, Exec, Inv, MetaInv, BlockShadow, LogInv, Balanced, VerdictOf, UsedSize, SizeQueryOk;
    hide OffStart, RePoison;
    var f := Exec(s, es);
    Reached(s, es);
    QueuedIsChunk(f, m);
    Home(f, m);
    StopsAtOffStart(f, f.chunks[m].b);
    LiveIffAllocated(f, m);
    var e := Visit(f.chunks[m].b);
    var g := Apply(f, e);
    EventKeeps(f, e);
    EventShadow(f, e);
    ChunkFacts(g, m);
    ClosedVerdict(g, m, a, accessSize);
  }

  /** In every run, at every stage of every chunk of a sound block: an access that
      starts in the left redzone is a heap buffer overflow. */
  lemma LeftRedzoneIsOverflow(s: State, es: seq<Event>, m: nat, a: nat, accessSize: nat)
    requires Initial(s) && CanRun(s, es) && accessSize > 0
    requires var f := Exec(s, es); m in f.chunks && f.chunks[m].b in f.sound && f.chunks[m].b <= a < m + HEADER
    ensures VerdictOf(Exec(s, es).mem.shadow, a, accessSize) == HeapBufferOverflow
  {
    hide CanRun, Exec, Inv, MetaInv, ShadowInv, LogInv, Balanced, VerdictOf;
    Reached(s, es);
    LeftVerdict(Exec(s, es), m, a, accessSize);
  }

  /** In every run: an access that starts past the end of an allocated chunk of a
      sound block, at a byte shadow denies, is a heap buffer overflow, provided
      another granule of this block, the start of a sound block, or the header
      page of a secondary block mapped while poisoning was on comes next. */
  lemma RightOverflowIsOverflow(s: State, es: seq<Event>, m: nat, a: nat, accessSize: nat)
    requires Initial(s) && CanRun(s, es) && accessSize > 0
    requires var f := Exec(s, es);
      && m in f.chunks && f.chunks[m].b in f.sound && Load(f.mem, m).state == ALLOCATED
      && Inside(f.mem.blocks, f.chunks[m].b, a) && m + HEADER + UsedSize(f.mem, m) <= a
      && a / GRANULE < |f.mem.shadow| && !Addressable(f.mem.shadow, a)
    requires var f := Exec(s, es); var next := a - a % GRANULE + GRANULE;
      || Inside(f.mem.blocks, f.chunks[m].b, next) || (next in f.mem.blocks && next in f.sound)
      || StartsLinedPage(f, next)
    ensures VerdictOf(Exec(s, es).mem.shadow, a, accessSize) == HeapBufferOverflow
  {
    hide CanRun, Exec, Inv, MetaInv, ShadowInv, LogInv, Balanced, VerdictOf, UsedSize, Load, ChunkOf;
    hide Addressable, Inside;
    var f := Exec(s, es);
    Reached(s, es);
    AllocatedIsLive(f, m);
    LiveIffAllocated(f, m);
    RightVerdict(f, m, a, accessSize);
  }

  /** From any reached state with poisoning on: once a secondary block is mapped,
      every byte of its header page is poisoned until it is unmapped, whatever
      else happens; an access that starts there is a heap buffer overflow. */
  lemma HeaderPageIsOverflow(s: State, es: seq<Event>, b: nat, x: Block, fs: seq<Event>, a: nat, accessSize: nat)
    requires Initial(s) && CanRun(s, es) && Exec(s, es).mem.canPoison && !x.primary && accessSize > 0
    requires Enabled(Exec(s, es), Map(b, x)) && CanRun(Apply(Exec(s, es), Map(b, x)), fs)
    requires forall i :: 0 <= i < |fs| ==> !(fs[i].Map? && fs[i].b == b)
    requires var f := Exec(Apply(Exec(s, es), Map(b, x)), fs); b in f.mem.blocks && b - 4096 <= a < b
    ensures var f := Exec(Apply(Exec(s, es), Map(b, x)), fs);
      && a / GRANULE < |f.mem.shadow| && f.mem.shadow[a / GRANULE] == HEAP_LEFT_REDZONE
      && !Addressable(f.mem.shadow, a) && VerdictOf(f.mem.shadow, a, accessSize) == HeapBufferOverflow
  {
    hide CanRun, Exec, Inv, MetaInv, ShadowInv, LogInv, Balanced, VerdictOf, MapBlock, Enabled;
    var g := Apply(Exec(s, es), Map(b, x));
    Reached(s, es);
    EventFull(Exec(s, es), Map(b, x));
    RunFull(g, fs);
    RunLined(g, fs, b, x);
    var f := Exec(g, fs);
    PageIsRedzone(f, b, a);
    TagDecides(f.mem.shadow, a, accessSize);
  }
}
