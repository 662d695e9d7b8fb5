/** The heap as a state machine. Threads allocate and free in interleaved
    steps: between two steps of one thread any other thread may move, poisoning
    may be switched, and a sweep may visit a block. Beside
    memory and the threads' program counters the state keeps a record of each
    chunk's life, which no step reads: it only says what memory should hold. */
module HeapMachine {
  import opened Wrappers
  import opened ChunkLayout
  import opened Shadow
  import opened HeapMemory

  /** What a thread is about to do with chunk m; Fill carries Allocate's locals. */
  datatype Step =
    | Fill(b: nat, size: nat, h: Header)
    | Publish
    | Quarantine
    | Put
    | Recycle
    | Release(b: nat)

  datatype Pc = Idle | At(m: nat, step: Step)

  datatype Stage = Live | Queued | Busy(t: nat, step: Step)

  /** `h` is the header Allocate decided on; `id` is the allocation's place in the log. */
  datatype Chunk = Chunk(b: nat, size: nat, h: Header, freeTid: nat, id: nat, stage: Stage)

  /** What an allocation was asked for and where it put its chunk. */
  datatype Request = Request(e: Event, m: nat)

  datatype Stats = Stats(mallocs: nat, malloced: nat, frees: nat, freed: nat, realFrees: nat, reallyFreed: nat)

  /** `queue` is the quarantine. `occ` maps each block handed out to its chunk,
      `used` holds the blocks handed out since they were mapped. `log` lists every
      allocation; `puts` and `recycled` count, per allocation, how often it was
      quarantined and recycled. `failed` says a CHECK failed or an unmapped page
      was read: the process stops.

      Four records follow shadow. `sound` holds the blocks whose last start from
      a known shadow (mapped or poisoned as a whole while poisoning was on, or
      visited by a sweep) was followed by no write that poisoning being off left
      out. `tagged` holds the chunks freed while poisoning was on and not visited
      since. `caught` holds the chunks that a visit found in a thread's hands with
      open user memory, and so poisoned, and that nothing has put right since.
      `lined` holds the blocks mapped while poisoning was on. */
  datatype State = State(
    mem: Mem, pcs: map<nat, Pc>, queue: multiset<nat>, minRz: nat, maxRz: nat, stats: map<nat, Stats>, failed: bool,
    occ: map<nat, nat>, chunks: map<nat, Chunk>, used: set<nat>,
    puts: multiset<nat>, recycled: multiset<nat>, log: seq<Request>,
    sound: set<nat>, tagged: set<nat>, caught: set<nat>, lined: set<nat>)

  datatype Event =
    | Map(b: nat, block: Block)
    | Malloc(t: nat, b: nat, request: nat, alignment: nat, allocType: nat, lsanTag: nat, context: nat)
    | Move(t: nat)
    | Free(t: nat, p: nat)
    | Dequeue(t: nat, m: nat)
    | SetRedzones(minRz: nat, maxRz: nat)
    | Deactivate
    | Activate
    | Visit(b: nat) // RePoisonChunk on one block, in the sweep of ReInitialize

  function PcOf(s: State, t: nat): Pc { if t in s.pcs then s.pcs[t] else Idle }

  function Counters(stats: map<nat, Stats>, t: nat): Stats {
    if t in stats then stats[t] else Stats(0, 0, 0, 0, 0, 0)
  }

  function StatsOf(s: State, t: nat): Stats { Counters(s.stats, t) }

  predicate AllIdle(s: State) { forall t :: t in s.pcs ==> s.pcs[t] == Idle }

  ghost predicate Initial(s: State) {
    && s.mem.blocks == map[] && s.mem.cells == map[] && s.mem.meta == map[]
    && (forall g :: 0 <= g < |s.mem.shadow| ==> s.mem.shadow[g] == 0)
    && s.pcs == map[] && s.queue == multiset{} && LegalOptions(s.minRz, s.maxRz)
    && s.stats == map[] && !s.failed
    && s.occ == map[] && s.chunks == map[] && s.used == {}
    && s.puts == multiset{} && s.recycled == multiset{} && s.log == []
    && s.sound == {} && s.tagged == {} && s.caught == {} && s.lined == {}
  }

  // ------------------------------------------------------------- allocation

  function PlanFor(s: State, e: Event): Plan
    requires e.Malloc? && LegalOptions(s.minRz, s.maxRz)
  {
    MakePlan(e.request, e.alignment, s.minRz, s.maxRz)
  }

  ghost predicate MallocEnabled(s: State, e: Event)
    requires e.Malloc?
  {
    && LegalOptions(s.minRz, s.maxRz) && PowerOfTwo(EffectiveAlign(e.alignment))
    && PcOf(s, e.t) == Idle && e.t < INVALID_TID
    && e.allocType < 4 && e.lsanTag < 4 && e.context < 0x1_0000_0000
    && PlanFor(s, e).Plan?
    && e.b in s.mem.blocks && e.b !in s.occ
    && PlanFor(s, e).needed <= s.mem.blocks[e.b].size && s.mem.blocks[e.b].primary == PlanFor(s, e).primary
  }

  function NewHeader(e: Event, p: Plan, m: nat): Header
    requires e.Malloc? && p.Plan? && p.rzLog < 8
  {
    Header(AVAILABLE, e.t, INVALID_TID, m + HEADER != e.b + RZLog2Size(p.rzLog), e.allocType, p.rzLog, e.lsanTag,
           if p.primary then p.size else MAX_CLASS_SIZE, AlignmentLog(e.alignment), e.context)
  }

  /** The CHECKs of Allocate. */
  predicate AllocateChecks(mem: Mem, b: nat, p: Plan)
    requires p.Plan? && p.rzLog < 8 && p.align > 0 && b in mem.blocks
  {
    var user := UserBeg(b, p);
    && p.needed % MIN_ALIGN == 0 && user + p.size <= b + p.needed
    && (user == b + HEADER || b + 2 * 8 + HEADER <= user)
    && p.size > 0 && mem.blocks[b].primary == p.primary
  }

  function NewAddr(s: State, e: Event): nat
    requires e.Malloc? && MallocEnabled(s, e)
  {
    UserBeg(e.b, PlanFor(s, e)) - HEADER
  }

  function NewChunk(s: State, e: Event): Chunk
    requires e.Malloc? && MallocEnabled(s, e)
  {
    var p := PlanFor(s, e);
    var h := NewHeader(e, p, NewAddr(s, e));
    Chunk(e.b, p.size, h, INVALID_TID, |s.log|, Busy(e.t, Fill(e.b, p.size, h)))
  }

  /** A raw block was picked; poison it first if it came unpoisoned. */
  function DoMalloc(s: State, e: Event): State
    requires e.Malloc? && MallocEnabled(s, e)
  {
    var m := NewAddr(s, e);
    var c := NewChunk(s, e);
    s.(mem := Dirty(s.mem, e.b),
       pcs := s.pcs[e.t := At(m, c.stage.step)],
       failed := s.failed || !AllocateChecks(s.mem, e.b, PlanFor(s, e)),
       occ := s.occ[e.b := m], used := s.used + {e.b}, chunks := s.chunks[m := c],
       log := s.log + [Request(e, m)],
       sound := if ComesClear(s.mem, e.b) then s.sound + {e.b} else s.sound, caught := s.caught - {m})
  }

  /** Poisoning is on, but the first granule of the raw block is clear. */
  predicate ComesClear(mem: Mem, b: nat) {
    b / GRANULE < |mem.shadow| && mem.shadow[b / GRANULE] == 0 && mem.canPoison
  }

  function Dirty(mem: Mem, b: nat): Mem
    requires b in mem.blocks
  {
    if ComesClear(mem, b) then PoisonBlock(mem, b) else mem
  }

  // -------------------------------------------------------- steps of a thread

  /** Blocks still sound after a step on chunk m that would have written tags. */
  function SoundAfter(s: State, m: nat): set<nat> {
    if s.mem.canPoison || m !in s.chunks then s.sound else s.sound - {s.chunks[m].b}
  }

  /** The record of chunk m moves on to another stage. */
  function Moved(s: State, m: nat, stage: Stage): map<nat, Chunk> {
    if m in s.chunks then s.chunks[m := s.chunks[m].(stage := stage)] else s.chunks
  }

  function DoFill(s: State, t: nat, m: nat, b: nat, size: nat, h: Header): State
    requires b in s.mem.blocks
  {
    var st := StatsOf(s, t);
    s.(mem := FillChunk(s.mem, b, m, size, h), pcs := s.pcs[t := At(m, Publish)],
       stats := s.stats[t := st.(mallocs := st.mallocs + 1, malloced := st.malloced + size)],
       chunks := Moved(s, m, Busy(t, Publish)),
       sound := if s.mem.canPoison || size % GRANULE == 0 then s.sound else s.sound - {b})
  }

  function DoPublish(s: State, t: nat, m: nat): State {
    s.(mem := SetState(s.mem, m, ALLOCATED), pcs := s.pcs[t := Idle], chunks := Moved(s, m, Live))
  }

  /** The compare-and-exchange of a free: whoever finds ALLOCATED goes on, anyone
      else reports an invalid free and changes nothing. */
  function DoFree(s: State, t: nat, p: nat): State {
    if p >= HEADER && p != 0 && Load(s.mem, p - HEADER).state == ALLOCATED then
      var m := p - HEADER;
      s.(mem := SetState(s.mem, m, QUARANTINE), pcs := s.pcs[t := At(m, Quarantine)],
         chunks := Moved(s, m, Busy(t, Quarantine)))
    else s
  }

  function DoQuarantine(s: State, t: nat, m: nat): State {
    var st := StatsOf(s, t);
    s.(mem := QuarantineChunk(s.mem, m, t), pcs := s.pcs[t := At(m, Put)],
       stats := s.stats[t := st.(frees := st.frees + 1, freed := st.freed + UsedSize(s.mem, m))],
       failed := s.failed || !QuarantineChecks(s.mem, m),
       sound := SoundAfter(s, m), caught := s.caught - {m},
       tagged := if s.mem.canPoison then s.tagged + {m} else s.tagged - {m},
       chunks := if m in s.chunks then s.chunks[m := s.chunks[m].(stage := Busy(t, Put), freeTid := t)] else s.chunks)
  }

  function DoPut(s: State, t: nat, m: nat): State {
    s.(queue := s.queue + multiset{m}, pcs := s.pcs[t := Idle], chunks := Moved(s, m, Queued),
       puts := if m in s.chunks then s.puts + multiset{s.chunks[m].id} else s.puts)
  }

  function DoDequeue(s: State, t: nat, m: nat): State {
    s.(queue := s.queue - multiset{m}, pcs := s.pcs[t := At(m, Recycle)], chunks := Moved(s, m, Busy(t, Recycle)))
  }

  function DoRecycle(s: State, t: nat, m: nat): State {
    var st := StatsOf(s, t);
    var step := Release(AllocBeg(s.mem, m));
    s.(mem := RecycleChunk(s.mem, m), pcs := s.pcs[t := At(m, step)],
       stats := s.stats[t := st.(realFrees := st.realFrees + 1, reallyFreed := st.reallyFreed + UsedSize(s.mem, m))],
       failed := s.failed || !RecycleChecks(s.mem, m),
       sound := SoundAfter(s, m), chunks := Moved(s, m, Busy(t, step)),
       recycled := if m in s.chunks then s.recycled + multiset{s.chunks[m].id} else s.recycled)
  }

  /** The raw block goes back: a primary block becomes free, a secondary block is unmapped. */
  function DoRelease(s: State, t: nat, m: nat, b: nat): State
    requires b in s.mem.blocks
  {
    var back := s.(pcs := s.pcs[t := Idle], occ := s.occ - {b}, chunks := s.chunks - {m});
    if s.mem.blocks[b].primary then back
    else back.(mem := Unmap(s.mem, b), used := s.used - {b}, sound := s.sound - {b}, lined := s.lined - {b})
  }

  /** The CHECKs are evaluated on whatever memory holds: a step stops the process
      exactly when one of its CHECKs fails. */
  lemma ChecksAreEvaluated(s: State, t: nat, m: nat)
    requires !s.failed
    ensures DoQuarantine(s, t, m).failed <==> Load(s.mem, m).state != 3 || Load(s.mem, m).freeTid != 0xff_ffff
    ensures DoRecycle(s, t, m).failed <==>
      || Load(s.mem, m).state != 3 || Load(s.mem, m).allocTid == 0xff_ffff || Load(s.mem, m).freeTid == 0xff_ffff
      || (AllocBeg(s.mem, m) != m && CellAt(s.mem, AllocBeg(s.mem, m)) != (0xCC6E96B9, m))
  {
    hide Load, AllocBeg, UsedSize, QuarantineChunk, RecycleChunk, StatsOf;
  }

  lemma AllocateIsChecked(s: State, e: Event)
    requires !s.failed && e.Malloc? && MallocEnabled(s, e)
    ensures var p := PlanFor(s, e); var user := UserBeg(e.b, p);
      DoMalloc(s, e).failed <==>
        || p.needed % 8 != 0 || user + p.size > e.b + p.needed || (user != e.b + 16 && user < e.b + 32)
        || p.size == 0 || s.mem.blocks[e.b].primary != p.primary
  {
    hide MakePlan, UserBeg, Dirty, NewHeader;
  }

  predicate MoveEnabled(s: State, t: nat) {
    match PcOf(s, t)
    case Idle => false
    case At(_, Fill(b, _, _)) => b in s.mem.blocks
    case At(_, Release(b)) => b in s.mem.blocks
    case At(_, _) => true
  }

  function DoMove(s: State, t: nat): State
    requires MoveEnabled(s, t)
  {
    match PcOf(s, t)
    case At(m, Fill(b, size, h)) => DoFill(s, t, m, b, size, h)
    case At(m, Publish) => DoPublish(s, t, m)
    case At(m, Quarantine) => DoQuarantine(s, t, m)
    case At(m, Put) => DoPut(s, t, m)
    case At(m, Recycle) => DoRecycle(s, t, m)
    case At(m, Release(b)) => DoRelease(s, t, m, b)
  }

  // ------------------------------------------------------------------- runs

  /** User memory is open to the program. */
  predicate UserOpen(stage: Stage) { stage.Live? || (stage.Busy? && (stage.step.Publish? || stage.step.Quarantine?)) }

  /** A block a sweep can come to: any block the raw allocator has carved, and a
      secondary block while it is handed out. */
  predicate Visitable(s: State, b: nat) { b in s.mem.blocks && (s.mem.blocks[b].primary || b in s.occ) }

  /** What a visit of block b does to the chunks caught: one that is open but not
      marked ALLOCATED is poisoned, and one marked ALLOCATED gets back only what
      lies past its last whole granule. */
  function CaughtBy(s: State, b: nat): set<nat> {
    if b !in s.occ || s.occ[b] !in s.chunks then s.caught
    else
      var c := s.chunks[s.occ[b]];
      if c.stage.Live? && c.size < GRANULE then s.caught - {s.occ[b]}
      else if UserOpen(c.stage) && !c.stage.Live? then s.caught + {s.occ[b]}
      else s.caught
  }

  function DoVisit(s: State, b: nat): (r: State)
    requires b in s.mem.blocks
    ensures r == s.(mem := r.mem, sound := r.sound, tagged := r.tagged, caught := r.caught, failed := r.failed)
    ensures r.mem == s.mem.(shadow := r.mem.shadow) && |r.mem.shadow| == |s.mem.shadow|
  {
    if !SizeQueryOk(s.mem, b) then s.(failed := true)
    else s.(mem := RePoison(s.mem, b), sound := s.sound + {b}, caught := CaughtBy(s, b),
            tagged := if b in s.occ then s.tagged - {s.occ[b]} else s.tagged)
  }

  /** A process that failed a CHECK does nothing more. */
  ghost predicate Enabled(s: State, e: Event) {
    && !s.failed
    && match e
       case Map(b, x) =>
         && BlockOk(b, x, |s.mem.shadow|)
         && (forall c :: c in s.mem.blocks ==> Apart(b, x, c, s.mem.blocks[c]))
       case Malloc(_, _, _, _, _, _, _) => MallocEnabled(s, e)
       case Move(t) => MoveEnabled(s, t)
       case Free(t, _) => PcOf(s, t) == Idle && t < INVALID_TID
       case Dequeue(t, m) => PcOf(s, t) == Idle && t < INVALID_TID && m in s.queue
       case SetRedzones(lo, hi) => LegalOptions(lo, hi)
       case Deactivate => true
       case Activate => true
       case Visit(b) => s.mem.canPoison && Visitable(s, b)
  }

  function DoMap(s: State, b: nat, x: Block): State {
    s.(mem := MapBlock(s.mem, b, x), sound := if s.mem.canPoison then s.sound + {b} else s.sound - {b},
       lined := if s.mem.canPoison then s.lined + {b} else s.lined - {b})
  }

  ghost function Apply(s: State, e: Event): State
    requires Enabled(s, e)
  {
    match e
    case Map(b, x) => DoMap(s, b, x)
    case Malloc(_, _, _, _, _, _, _) => DoMalloc(s, e)
    case Move(t) => DoMove(s, t)
    case Free(t, p) => DoFree(s, t, p)
    case Dequeue(t, m) => DoDequeue(s, t, m)
    case SetRedzones(lo, hi) => s.(minRz := lo, maxRz := hi)
    case Deactivate => s.(mem := s.mem.(canPoison := false))
    case Activate => s.(mem := s.mem.(canPoison := true))
    case Visit(b) => DoVisit(s, b)
  }

  ghost predicate CanRun(s: State, es: seq<Event>)
    decreases |es|
  {
    es == [] || (Enabled(s, es[0]) && CanRun(Apply(s, es[0]), es[1..]))
  }

  ghost function Exec(s: State, es: seq<Event>): State
    requires CanRun(s, es)
    decreases |es|
  {
    if es == [] then s else Exec(Apply(s, es[0]), es[1..])
  }

  // ------------------------------------------------------------ the switches

  /** Heap operations and visits: no event of the run touches a switch. */
  predicate LeavesSwitches(e: Event) { !e.SetRedzones? && !e.Deactivate? && !e.Activate? }

  lemma EventLeavesSwitches(s: State, e: Event)
    requires Enabled(s, e) && LeavesSwitches(e)
    ensures var f := Apply(s, e); f.minRz == s.minRz && f.maxRz == s.maxRz && f.mem.canPoison == s.mem.canPoison
  {
    hide Load, NewAddr, NewChunk, AllocateChecks, PlanFor, SetState, PoisonBlock, MallocEnabled, MoveEnabled;
    hide DoMove, DoVisit, MapBlock, ComesClear;
    if e.Move? { MoveLeavesSwitches(s, e.t); }
  }

  lemma MoveLeavesSwitches(s: State, t: nat)
    requires MoveEnabled(s, t)
    ensures var f := DoMove(s, t); f.minRz == s.minRz && f.maxRz == s.maxRz && f.mem.canPoison == s.mem.canPoison
  {
    hide UsedSize, AllocBeg, QuarantineChecks, RecycleChecks, FillChunk, SetState, QuarantineChunk;
    hide RecycleChunk, Unmap, StatsOf, Moved, SoundAfter;
  }

  /** Poisoning goes off only when it is switched off. */
  lemma StaysOn(s: State, e: Event)
    requires Enabled(s, e) && s.mem.canPoison && !e.Deactivate?
    ensures Apply(s, e).mem.canPoison
  {
    hide DoMap, DoMalloc, DoMove, DoFree, DoDequeue, DoVisit, MallocEnabled, MoveEnabled;
    if LeavesSwitches(e) { EventLeavesSwitches(s, e); }
  }

  lemma {:induction false} RunThen(s: State, es: seq<Event>, e: Event)
    requires CanRun(s, es + [e])
    ensures CanRun(s, es) && Enabled(Exec(s, es), e) && Exec(s, es + [e]) == Apply(Exec(s, es), e)
    decreases |es|
  {
    hide Enabled, Apply;
    if es == [] {
      assert es + [e] == [e] && [e][1..] == [];
    } else {
      assert (es + [e])[1..] == es[1..] + [e];
      RunThen(Apply(s, es[0]), es[1..], e);
    }
  }

  lemma {:induction false} Joined(s: State, es: seq<Event>, fs: seq<Event>)
    requires CanRun(s, es) && CanRun(Exec(s, es), fs)
    ensures CanRun(s, es + fs) && Exec(s, es + fs) == Exec(Exec(s, es), fs)
    decreases |es|
  {
    hide Enabled, Apply;
    if es == [] {
      assert es + fs == fs;
    } else {
      assert (es + fs)[1..] == es[1..] + fs;
      Joined(Apply(s, es[0]), es[1..], fs);
    }
  }
}
