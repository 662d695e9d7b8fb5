/** Copying Blocks to the heap and releasing them again (non-GC mode).

    Copy and dispose helpers are lists of fields: the compiler emits one call
    of _Block_object_assign, and one of _Block_object_dispose, per field. */
module BlockMemory {
  import opened BlockFlags

  type Addr = nat

  const NULL: Addr := 0

  datatype Field = Field(flags: bv8, target: Addr)

  /** A stack or global Block: the runtime reads it and never writes it. */
  datatype Proto = Proto(word: nat, fields: seq<Field>)

  /** Memory the runtime writes: heap Blocks, byrefs, and retained objects. */
  datatype Cell =
    | Block(word: nat, fields: seq<Field>)
    | Byref(word: nat, forwarding: Addr, value: int)
    | Object(retains: int)

  /** `fails` holds the allocations for which malloc returns NULL; `bad` records
      an access to memory that is not allocated, or a count that underflows. */
  datatype Mem = Mem(prog: map<Addr, Proto>, cells: map<Addr, Cell>, next: Addr, fails: set<Addr>, bad: bool)

  /** The kind of reference a helper call takes or drops. */
  datatype Action = Nothing | CopyBlock | ShareByref | Retain

  const FIELD_IS_OBJECT: bv8 := 3
  const FIELD_IS_BLOCK: bv8 := 7
  const FIELD_IS_BYREF: bv8 := 8
  const FIELD_IS_WEAK: bv8 := 16
  const BYREF_CALLER: bv8 := 128

  /** The branch _Block_object_assign takes. */
  function OnAssign(flags: bv8): Action {
    if flags & BYREF_CALLER == BYREF_CALLER then Nothing
    else if flags & FIELD_IS_BYREF == FIELD_IS_BYREF then ShareByref
    else if flags & FIELD_IS_BLOCK == FIELD_IS_BLOCK then CopyBlock
    else if flags & FIELD_IS_OBJECT == FIELD_IS_OBJECT then Retain
    else Nothing
  }

  /** The branch _Block_object_dispose takes. */
  function OnDispose(flags: bv8): Action {
    if flags & FIELD_IS_BYREF != 0 then ShareByref
    else if flags & (FIELD_IS_BLOCK | BYREF_CALLER) == FIELD_IS_BLOCK then CopyBlock
    else if flags & (FIELD_IS_WEAK | FIELD_IS_BLOCK | BYREF_CALLER) == FIELD_IS_OBJECT then Retain
    else Nothing
  }

  predicate CompilerFlags(flags: bv8) {
    flags in {3, 7, 8, 8 | 16, 128 | 3, 128 | 3 | 16, 128 | 7, 128 | 7 | 16}
  }

  /** What they stand for: a captured object, Block, __block variable, or a field of a __block variable. */
  function CompilersAction(flags: bv8): Action {
    if flags == 3 then Retain else if flags == 7 then CopyBlock else if flags < 128 then ShareByref else Nothing
  }

  /** Assign takes a reference exactly where dispose drops one, for precisely
      the flag words that neither combine BYREF with BYREF_CALLER nor mark a
      plainly captured object WEAK; the compiler's eight values are such. */
  lemma FlagsBalance(flags: bv8)
    ensures OnAssign(flags) == OnDispose(flags) <==>
            flags & (128 | 8) != 128 | 8 && flags & (128 | 8 | 16 | 7) != 16 | 3
    ensures CompilerFlags(flags) ==> OnAssign(flags) == OnDispose(flags) == CompilersAction(flags)
  {
  }

  // ---------------------------------------------------------------- copying

  function OrTwo(c: nat): (r: nat)
    requires c <= REFCOUNT_MASK
    ensures c <= r <= REFCOUNT_MASK && (c == 0 ==> r == 2)
  {
    if c / 2 % 2 == 1 then c else c + 2
  }

  predicate IsByref(m: Mem, a: Addr) { a in m.cells && m.cells[a].Byref? }

  predicate IsBlock(m: Mem, a: Addr) { a in m.cells && m.cells[a].Block? }

  /** _Block_byref_assign_copy: the pointer stored in the copied closure, and the memory after. */
  function ByrefAssignCopy(m: Mem, src: Addr): (Addr, Mem) {
    if !IsByref(m, src) || !IsByref(m, m.cells[src].forwarding) then
      (src, m.(bad := true))
    else
      var s := m.cells[src];
      var f := m.cells[s.forwarding];
      if Count(f.word) == 0 then
        var copy := Byref(HeapWord(s.word, OrTwo(Count(s.word))), m.next, s.value);
        (m.next, m.(cells := m.cells[m.next := copy][src := s.(forwarding := m.next)], next := m.next + 1))
      else if NeedsFree(f.word) then
        (s.forwarding, m.(cells := m.cells[s.forwarding := Byref(Incr(f.word), f.forwarding, f.value)]))
      else
        (s.forwarding, m)
  }

  function RetainObject(m: Mem, a: Addr): Mem {
    if a == NULL then m
    else if a in m.cells && m.cells[a].Object? then
      m.(cells := m.cells[a := Object(m.cells[a].retains + 1)])
    else m.(bad := true)
  }

  /** The captured-Block edges of stack and global Blocks descend in `rank`. */
  ghost predicate Acyclic(prog: map<Addr, Proto>, rank: map<Addr, nat>) {
    && prog.Keys <= rank.Keys
    && forall b, i :: b in prog && 0 <= i < |prog[b].fields| && prog[b].fields[i].target in prog
         ==> rank[prog[b].fields[i].target] < rank[b]
  }

  ghost function Height(prog: map<Addr, Proto>, rank: map<Addr, nat>, b: Addr): nat
    requires prog.Keys <= rank.Keys
  {
    if b in prog then rank[b] + 1 else 0
  }

  /** _Block_copy_internal: the resulting pointer and the memory after. */
  ghost function Copy(m: Mem, b: Addr, rank: map<Addr, nat>): (r: (Addr, Mem))
    requires Acyclic(m.prog, rank)
    ensures r.1.prog == m.prog
    decreases Height(m.prog, rank, b), 1, 0
  {
    if b == NULL then (NULL, m)
    else if b in m.prog then
      if IsGlobal(m.prog[b].word) then (b, m)
      else if m.next in m.fails then (NULL, m.(next := m.next + 1))
      else
        var m1 := BitCopy(m, b);
        if HasCopyDispose(m1.cells[m.next].word) then
          (m.next, CopyFields(m1, b, m.next, 0, rank))
        else
          (m.next, m1)
    else if IsBlock(m, b) then
      (b, m.(cells := m.cells[b := Block(Incr(m.cells[b].word), m.cells[b].fields)]))
    else
      (b, m.(bad := true))
  }

  /** The heap copy before its helper runs: same fields, count one. */
  function BitCopy(m: Mem, b: Addr): (r: Mem)
    requires b in m.prog
    ensures r.prog == m.prog && m.next in r.cells && r.cells[m.next].Block?
  {
    var copy := Block(HeapWord(m.prog[b].word, 1), m.prog[b].fields);
    m.(cells := m.cells[m.next := copy], next := m.next + 1)
  }

  /** The copy helper: assign fields i, i+1, ... of stack Block b into its heap copy n. */
  ghost function CopyFields(m: Mem, b: Addr, n: Addr, i: nat, rank: map<Addr, nat>): (r: Mem)
    requires Acyclic(m.prog, rank) && b in m.prog && i <= |m.prog[b].fields|
    ensures r.prog == m.prog
    decreases Height(m.prog, rank, b), 0, |m.prog[b].fields| - i
  {
    if i == |m.prog[b].fields| then m
    else
      var (p, m1) := AssignField(m, m.prog[b].fields[i], rank);
      CopyFields(SetField(m1, n, i, p), b, n, i + 1, rank)
  }

  /** _Block_object_assign: the pointer to store and the memory after. */
  ghost function AssignField(m: Mem, f: Field, rank: map<Addr, nat>): (r: (Addr, Mem))
    requires Acyclic(m.prog, rank)
    ensures r.1.prog == m.prog
    decreases Height(m.prog, rank, f.target), 2, 0
  {
    match OnAssign(f.flags)
    case Nothing => (f.target, m)
    case CopyBlock => Copy(m, f.target, rank)
    case ShareByref => ByrefAssignCopy(m, f.target)
    case Retain => (f.target, RetainObject(m, f.target))
  }

  function SetField(m: Mem, n: Addr, i: nat, p: Addr): Mem {
    if IsBlock(m, n) && i < |m.cells[n].fields| then
      var c := m.cells[n];
      m.(cells := m.cells[n := Block(c.word, c.fields[i := Field(c.fields[i].flags, p)])])
    else m.(bad := true)
  }

  // -------------------------------------------------------------- releasing

  ghost function Alive(m: Mem): set<Addr> {
    set a | a in m.cells && m.cells[a].Block? && Count(m.cells[a].word) > 0
  }

  function ReleaseObject(m: Mem, a: Addr): Mem {
    if a == NULL then m
    else if a in m.cells && m.cells[a].Object? then
      m.(cells := m.cells[a := Object(m.cells[a].retains - 1)])
    else m.(bad := true)
  }

  /** _Block_byref_release. Byref helpers carry BYREF_CALLER, so disposing of a
      byref releases nothing further. */
  function ByrefRelease(m: Mem, a: Addr): Mem {
    if !IsByref(m, a) || !IsByref(m, m.cells[a].forwarding) then m.(bad := true)
    else
      var h := m.cells[a].forwarding;
      var c := m.cells[h];
      if !NeedsFree(c.word) then m
      else if Count(c.word) == 0 then m.(bad := true)
      else if Count(Decr(c.word)) == 0 then m.(cells := m.cells - {h})
      else m.(cells := m.cells[h := Byref(Decr(c.word), c.forwarding, c.value)])
  }

  /** _Block_release (and _Block_destroy): the memory after. */
  ghost function Release(m: Mem, a: Addr): (r: Mem)
    ensures Alive(r) <= Alive(m)
    decreases Alive(m), 0
  {
    if a == NULL || a in m.prog then m
    else if !IsBlock(m, a) || Count(m.cells[a].word) == 0 then m.(bad := true)
    else
      var c := m.cells[a];
      var word := Decr(c.word);
      var m1 := m.(cells := m.cells[a := Block(word, c.fields)]);
      if Count(word) > 0 then m1
      else
        assert Alive(m1) <= Alive(m) && a in Alive(m) && a !in Alive(m1);
        var m2 := if HasCopyDispose(word) then DisposeFields(m1, c.fields) else m1;
        m2.(cells := m2.cells - {a})
  }

  /** The dispose helper. */
  ghost function DisposeFields(m: Mem, fs: seq<Field>): (r: Mem)
    ensures Alive(r) <= Alive(m)
    decreases Alive(m), |fs| + 1
  {
    if fs == [] then m else DisposeFields(DisposeField(m, fs[0]), fs[1..])
  }

  /** _Block_object_dispose. */
  ghost function DisposeField(m: Mem, f: Field): (r: Mem)
    ensures Alive(r) <= Alive(m)
    decreases Alive(m), 1
  {
    match OnDispose(f.flags)
    case Nothing => m
    case CopyBlock => Release(m, f.target)
    case ShareByref => ByrefRelease(m, f.target)
    case Retain => ReleaseObject(m, f.target)
  }
}
