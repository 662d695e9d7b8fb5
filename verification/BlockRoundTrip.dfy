/** _Block_copy followed by _Block_release, for any acyclic nest of captures. */
module BlockRoundTrip {
  import opened BlockFlags
  import opened BlockMemory

  /** What one assigned field came to: a pointer without a reference, a
      reference to something already shared, or a fresh heap Block. */
  datatype Copied = Inert(a: Addr) | Shared(a: Addr) | Fresh(a: Addr, kids: seq<Copied>)

  /** The references the forest holds. */
  ghost function Held(ts: seq<Copied>): multiset<Addr>
    decreases ts
  {
    if ts == [] then multiset{}
    else
      (match ts[0]
       case Inert(_) => multiset{}
       case Shared(a) => multiset{a}
       case Fresh(_, kids) => Held(kids)) + Held(ts[1..])
  }

  /** Heap Blocks the forest created. */
  ghost function FreshOf(ts: seq<Copied>): set<Addr>
    decreases ts
  {
    if ts == [] then {}
    else
      (match ts[0]
       case Inert(_) => {}
       case Shared(_) => {}
       case Fresh(a, kids) => {a} + FreshOf(kids)) + FreshOf(ts[1..])
  }

  predicate HeapByref(m: Mem, a: Addr) {
    IsByref(m, a) && m.cells[a].forwarding == a && NeedsFree(m.cells[a].word) && Count(m.cells[a].word) > 0
  }

  predicate SharedFits(m: Mem, act: Action, a: Addr) {
    match act
    case Nothing => false
    case CopyBlock => IsBlock(m, a)
    case ShareByref => HeapByref(m, a)
    case Retain => a in m.cells && m.cells[a].Object?
  }

  /** Memory holds exactly the forest ts behind the fields fs. */
  ghost predicate Stands(m: Mem, fs: seq<Field>, ts: seq<Copied>)
    decreases ts
  {
    && |fs| == |ts|
    && (ts != [] ==>
          && fs[0].target == ts[0].a
          && Stands(m, fs[1..], ts[1..])
          && match ts[0]
             case Inert(a) => OnDispose(fs[0].flags).Nothing? ||
                              (a == NULL && !OnDispose(fs[0].flags).ShareByref?) ||
                              (a in m.prog && OnDispose(fs[0].flags).CopyBlock?)
             case Shared(a) => a != NULL && a !in m.prog && SharedFits(m, OnDispose(fs[0].flags), a)
             case Fresh(a, kids) =>
               && OnDispose(fs[0].flags).CopyBlock?
               && a != NULL && a !in m.prog && IsBlock(m, a) && Count(m.cells[a].word) == 1
               && a !in FreshOf(kids) && ({a} + FreshOf(kids)) !! FreshOf(ts[1..])
               && if HasCopyDispose(m.cells[a].word) then Stands(m, m.cells[a].fields, kids) else kids == [])
  }

  // ------------------------------------------------------------- arithmetic

  /** n latching increments of a flags word. */
  function IncrBy(w: nat, n: nat): (r: nat)
    ensures Upper(r) == Upper(w)
    ensures Count(r) == if Count(w) + n >= REFCOUNT_MASK then REFCOUNT_MASK else Count(w) + n
  {
    if Count(w) + n >= REFCOUNT_MASK then Pack(Upper(w), REFCOUNT_MASK) else Pack(Upper(w), Count(w) + n)
  }

  /** n latching decrements of a flags word that never reach zero. */
  function DecrBy(w: nat, n: nat): (r: nat)
    ensures Upper(r) == Upper(w)
    ensures Count(r) == if Latched(w) || Count(w) < n then Count(w) else Count(w) - n
  {
    if Latched(w) || Count(w) < n then w else Pack(Upper(w), Count(w) - n)
  }

  lemma WordEq(v: nat, w: nat)
    requires Upper(v) == Upper(w) && Count(v) == Count(w)
    ensures v == w
  {
  }

  function Raise(c: Cell, n: nat): Cell {
    match c
    case Block(w, fs) => Block(IncrBy(w, n), fs)
    case Byref(w, f, v) => Byref(IncrBy(w, n), f, v)
    case Object(r) => Object(r + n)
  }

  function Lower(c: Cell, n: nat): Cell {
    match c
    case Block(w, fs) => Block(DecrBy(w, n), fs)
    case Byref(w, f, v) => Byref(DecrBy(w, n), f, v)
    case Object(r) => Object(r - n)
  }

  /** More references than the forest will drop, or a count that no longer moves. */
  predicate Plenty(c: Cell, n: nat) {
    match c
    case Block(w, _) => Latched(w) || Count(w) > n
    case Byref(w, _, _) => Latched(w) || Count(w) > n
    case Object(_) => true
  }

  lemma LowerBy(c: Cell, k: nat, n: nat)
    requires Plenty(c, k + n)
    ensures Lower(Lower(c, k), n) == Lower(c, k + n) && Plenty(Lower(c, k), n) && Lower(c, 0) == c
  {
    if !c.Object? {
      WordEq(DecrBy(DecrBy(c.word, k), n), DecrBy(c.word, k + n));
      WordEq(DecrBy(c.word, 0), c.word);
    }
  }

  // -------------------------------------------------------------- releasing

  lemma SplitForest(ts: seq<Copied>)
    requires ts != []
    ensures Held(ts) == Held([ts[0]]) + Held(ts[1..])
    ensures FreshOf(ts) == FreshOf([ts[0]]) + FreshOf(ts[1..])
    ensures ts[0].Inert? ==> Held([ts[0]]) == multiset{} && FreshOf([ts[0]]) == {}
    ensures ts[0].Shared? ==> Held([ts[0]]) == multiset{ts[0].a} && FreshOf([ts[0]]) == {}
    ensures ts[0].Fresh? ==> Held([ts[0]]) == Held(ts[0].kids) && FreshOf([ts[0]]) == {ts[0].a} + FreshOf(ts[0].kids)
  {
    assert [ts[0]][1..] == [];
  }

  /** Only the forest's own Blocks and shared cells matter to Stands. */
  lemma {:induction false} StandsFrame(m: Mem, m': Mem, fs: seq<Field>, ts: seq<Copied>)
    requires Stands(m, fs, ts) && m'.prog == m.prog
    requires forall a :: a in FreshOf(ts) && a in m.cells ==> a in m'.cells && m'.cells[a] == m.cells[a]
    requires forall x :: x in Held(ts) && x in m.cells ==> SameKind(m, m', x)
    ensures Stands(m', fs, ts)
    decreases ts
  {
    if ts != [] {
      SplitForest(ts);
      StandsFrame(m, m', fs[1..], ts[1..]);
      match ts[0]
      case Inert(_) =>
      case Shared(a) =>
        assert a in Held(ts);
      case Fresh(a, kids) =>
        assert a in FreshOf(ts);
        if HasCopyDispose(m.cells[a].word) {
          StandsFrame(m, m', m.cells[a].fields, kids);
        }
    }
  }

  predicate SameKind(m: Mem, m': Mem, x: Addr) {
    x in m.cells ==>
      && x in m'.cells
      && (m.cells[x].Block? ==> m'.cells[x].Block?)
      && (m.cells[x].Object? ==> m'.cells[x].Object?)
      && (HeapByref(m, x) ==> HeapByref(m', x))
  }

  /** What disposing of a forest leaves: the Blocks `made` gone, every other count
      lower by the references u, nothing else touched. */
  ghost predicate Dropped(m: Mem, m': Mem, u: multiset<Addr>, made: set<Addr>) {
    && m' == m.(cells := m'.cells)
    && m'.cells.Keys == m.cells.Keys - made
    && forall x :: x in m'.cells ==> m'.cells[x] == Lower(m.cells[x], u[x])
  }

  /** Dropping the references u cannot bring any count to zero, nor reach the Blocks `made`. */
  ghost predicate Spare(m: Mem, u: multiset<Addr>, made: set<Addr>) {
    && (forall a :: a in made ==> a !in u)
    && (forall x :: x in m.cells && x in u ==> Plenty(m.cells[x], u[x]))
  }

  lemma LowerZero(c: Cell)
    ensures Lower(c, 0) == c
  {
    if !c.Object? { WordEq(DecrBy(c.word, 0), c.word); }
  }

  lemma DroppedTwice(m: Mem, m1: Mem, m2: Mem, u1: multiset<Addr>, made1: set<Addr>,
                     u2: multiset<Addr>, made2: set<Addr>)
    requires Dropped(m, m1, u1, made1) && Dropped(m1, m2, u2, made2) && Spare(m, u1 + u2, made1 + made2)
    ensures Dropped(m, m2, u1 + u2, made1 + made2)
  {
    forall x | x in m2.cells ensures m2.cells[x] == Lower(m.cells[x], (u1 + u2)[x]) {
      if x in u1 + u2 {
        LowerBy(m.cells[x], u1[x], u2[x]);
      } else {
        LowerZero(m.cells[x]);
      }
    }
  }

  /** After one tree is gone the rest still stands and can be dropped. */
  lemma RestStands(m: Mem, m1: Mem, u1: multiset<Addr>, made1: set<Addr>, fs: seq<Field>, ts: seq<Copied>)
    requires Dropped(m, m1, u1, made1) && Spare(m, u1 + Held(ts), made1 + FreshOf(ts))
    requires Stands(m, fs, ts) && made1 !! FreshOf(ts)
    ensures Stands(m1, fs, ts) && Spare(m1, Held(ts), FreshOf(ts))
  {
    var u2 := Held(ts);
    forall a | a in FreshOf(ts) && a in m.cells ensures a in m1.cells && m1.cells[a] == m.cells[a] {
      assert a !in u1 + u2;
      LowerZero(m.cells[a]);
    }
    forall x | x in m.cells && x in u2 ensures SameKind(m, m1, x) && x in m1.cells && Plenty(m1.cells[x], u2[x]) {
      assert x in u1 + u2 && x !in made1;
      LowerBy(m.cells[x], u1[x], u2[x]);
    }
    StandsFrame(m, m1, fs, ts);
  }

  lemma {:induction false} DisposeForest(m: Mem, fs: seq<Field>, ts: seq<Copied>)
    requires Stands(m, fs, ts) && Spare(m, Held(ts), FreshOf(ts))
    ensures Dropped(m, DisposeFields(m, fs), Held(ts), FreshOf(ts))
    decreases ts, 1
  {
    if ts == [] {
      forall x | x in m.cells ensures m.cells[x] == Lower(m.cells[x], 0) { LowerZero(m.cells[x]); }
    } else {
      SplitForest(ts);
      DisposeTree(m, fs, ts);
      var m1 := DisposeField(m, fs[0]);
      RestStands(m, m1, Held([ts[0]]), FreshOf([ts[0]]), fs[1..], ts[1..]);
      DisposeForest(m1, fs[1..], ts[1..]);
      DroppedTwice(m, m1, DisposeFields(m1, fs[1..]), Held([ts[0]]), FreshOf([ts[0]]), Held(ts[1..]), FreshOf(ts[1..]));
    }
  }

  /** Disposing of one field drops exactly the tree behind it. */
  lemma {:induction false} DisposeTree(m: Mem, fs: seq<Field>, ts: seq<Copied>)
    requires ts != [] && Stands(m, fs, ts) && Spare(m, Held(ts), FreshOf(ts))
    ensures Dropped(m, DisposeField(m, fs[0]), Held([ts[0]]), FreshOf([ts[0]]))
    decreases ts, 0
  {
    SplitForest(ts);
    match ts[0]
    case Inert(_) =>
      forall x | x in m.cells ensures Lower(m.cells[x], 0) == m.cells[x] { LowerZero(m.cells[x]); }
    case Shared(a) =>
      assert a in Held(ts);
      DisposeShared(m, fs[0], Held(ts)[a]);
    case Fresh(a, kids) =>
      FreshReady(m, fs, ts);
      DisposeFresh(m, a, kids);
  }

  ghost predicate FreshFits(m: Mem, a: Addr, kids: seq<Copied>) {
    && a != NULL && a !in m.prog && IsBlock(m, a) && Count(m.cells[a].word) == 1
    && (if HasCopyDispose(m.cells[a].word) then Stands(m, m.cells[a].fields, kids) else kids == [])
    && a !in FreshOf(kids) && a !in Held(kids) && Spare(m, Held(kids), FreshOf(kids))
  }

  lemma FreshReady(m: Mem, fs: seq<Field>, ts: seq<Copied>)
    requires ts != [] && ts[0].Fresh? && Stands(m, fs, ts) && Spare(m, Held(ts), FreshOf(ts))
    ensures FreshFits(m, ts[0].a, ts[0].kids)
  {
    SplitForest(ts);
    assert ts[0].a in FreshOf(ts);
  }

  lemma DisposeShared(m: Mem, f: Field, n: nat)
    requires f.target != NULL && f.target !in m.prog && SharedFits(m, OnDispose(f.flags), f.target)
    requires n > 0 && Plenty(m.cells[f.target], n)
    ensures Dropped(m, DisposeField(m, f), multiset{f.target}, {})
  {
    var a := f.target;
    DropOne(m.cells[a], n);
    assert DisposeField(m, f) == m.(cells := m.cells[a := Lower(m.cells[a], 1)]) by {
      match OnDispose(f.flags)
      case CopyBlock => assert Release(m, a) == Zeroed(m, a);
      case ShareByref =>
      case Retain =>
    }
    forall x | x in m.cells ensures Lower(m.cells[x], 0) == m.cells[x] { LowerZero(m.cells[x]); }
  }

  lemma DropOne(c: Cell, n: nat)
    requires n > 0 && Plenty(c, n)
    ensures !c.Object? ==> DecrBy(c.word, 1) == Decr(c.word) && Count(Decr(c.word)) > 0
  {
    if !c.Object? { WordEq(DecrBy(c.word, 1), Decr(c.word)); }
  }

  /** The fresh Block with its count at zero, as its dispose helper sees it. */
  function Zeroed(m: Mem, a: Addr): Mem
    requires IsBlock(m, a)
  {
    m.(cells := m.cells[a := Block(Decr(m.cells[a].word), m.cells[a].fields)])
  }

  lemma {:induction false} DisposeFresh(m: Mem, a: Addr, kids: seq<Copied>)
    requires FreshFits(m, a, kids)
    ensures Dropped(m, Release(m, a), Held(kids), {a} + FreshOf(kids))
    decreases kids, 2
  {
    var c := m.cells[a];
    var m1 := Zeroed(m, a);
    if HasCopyDispose(c.word) {
      StandsFrame(m, m1, c.fields, kids);
      DisposeForest(m1, c.fields, kids);
      FreshGone(m, a, DisposeFields(m1, c.fields), Held(kids), FreshOf(kids));
    } else {
      forall x | x in m.cells ensures Lower(m.cells[x], 0) == m.cells[x] { LowerZero(m.cells[x]); }
    }
  }

  lemma FreshGone(m: Mem, a: Addr, m2: Mem, u: multiset<Addr>, made: set<Addr>)
    requires IsBlock(m, a) && Dropped(Zeroed(m, a), m2, u, made)
    ensures Dropped(m, m2.(cells := m2.cells - {a}), u, {a} + made)
  {
  }

  // ---------------------------------------------------------------- copying

  /** A stack byref not yet moved points to itself and has no count; any other
      forwarding ends at a heap byref with a count. */
  ghost predicate ByrefOk(m: Mem, a: Addr)
    requires IsByref(m, a)
  {
    var h := m.cells[a].forwarding;
    && IsByref(m, h) && m.cells[h].forwarding == h
    && (Count(m.cells[h].word) > 0 <==> NeedsFree(m.cells[h].word))
    && (Count(m.cells[h].word) == 0 ==> h == a)
    && (h != a ==> Count(m.cells[a].word) == 0)
  }

  /** A captured variable refers to something of the kind its flags announce. */
  ghost predicate FieldReady(m: Mem, f: Field, lim: Addr) {
    && OnAssign(f.flags) == OnDispose(f.flags)
    && f.target < lim
    && match OnAssign(f.flags)
       case Nothing => true
       case CopyBlock => f.target == NULL || f.target in m.prog || IsBlock(m, f.target)
       case ShareByref => IsByref(m, f.target)
       case Retain => f.target == NULL || (f.target in m.cells && m.cells[f.target].Object?)
  }

  /** Memory between runtime calls; captures refer to addresses below lim. */
  ghost predicate Ready(m: Mem, lim: Addr) {
    && 0 < lim <= m.next
    && (forall a :: a in m.cells ==> 0 < a < m.next && a !in m.prog)
    && (forall b :: b in m.prog ==> 0 < b < lim)
    && (forall a :: IsBlock(m, a) ==> Count(m.cells[a].word) > 0)
    && (forall a :: IsByref(m, a) ==> ByrefOk(m, a))
    && (forall b, i :: b in m.prog && 0 <= i < |m.prog[b].fields| ==> FieldReady(m, m.prog[b].fields[i], lim))
  }

  /** Cell x gained k references, or is a stack byref now forwarding to a new heap cell. */
  ghost predicate Kept(m: Mem, m': Mem, x: Addr, k: nat)
    requires x in m.cells
  {
    && x in m'.cells
    && (m'.cells[x] == Raise(m.cells[x], k) || (k == 0 && Moved(m, m', x)))
  }

  ghost predicate Moved(m: Mem, m': Mem, x: Addr) {
    && IsByref(m, x) && m.cells[x].forwarding == x && Count(m.cells[x].word) == 0
    && IsByref(m', x) && m'.cells[x].forwarding != x && m'.cells[x].forwarding in m'.cells
    && m'.cells[x].forwarding !in m.cells
    && m'.cells[x] == Byref(m.cells[x].word, m'.cells[x].forwarding, m.cells[x].value)
  }

  /** A heap byref the copy made: the stack's share plus the forest's references. */
  ghost predicate MovedTo(m: Mem, m': Mem, x: Addr, k: nat) {
    && HeapByref(m', x)
    && Count(m'.cells[x].word) == (if 1 + k >= REFCOUNT_MASK then REFCOUNT_MASK else 1 + k)
    && exists s :: s in m.cells && IsByref(m', s) && m'.cells[s].forwarding == x
  }

  ghost predicate OldKept(m: Mem, m': Mem, u: multiset<Addr>, n: Addr) {
    forall x :: x in m.cells ==> x in m'.cells && (x != n ==> Kept(m, m', x, u[x]))
  }

  ghost predicate NewMoved(m: Mem, m': Mem, u: multiset<Addr>, made: set<Addr>) {
    forall x :: x in m'.cells && x !in m.cells ==> m.next <= x && (x in made || MovedTo(m, m', x, u[x]))
  }

  ghost predicate SharedFit(m': Mem, u: multiset<Addr>, lim: Addr) {
    forall x :: x in u ==> x in m'.cells && (IsBlock(m', x) ==> x < lim) && (IsByref(m', x) ==> HeapByref(m', x))
  }

  /** Memory grew from m to m' by the references u and the fresh Blocks; Block n is not described. */
  ghost predicate Grown(m: Mem, m': Mem, u: multiset<Addr>, made: set<Addr>, lim: Addr, n: Addr) {
    && m' == m.(cells := m'.cells, next := m'.next) && m.next <= m'.next
    && OldKept(m, m', u, n)
    && NewMoved(m, m', u, made)
    && (forall a :: a in made ==> m.next <= a && IsBlock(m', a))
    && SharedFit(m', u, lim)
  }

  lemma RaiseBy(c: Cell, k: nat, n: nat)
    ensures Raise(Raise(c, k), n) == Raise(c, k + n) && Raise(c, 0) == c
  {
    if !c.Object? {
      WordEq(IncrBy(IncrBy(c.word, k), n), IncrBy(c.word, k + n));
      WordEq(IncrBy(c.word, 0), c.word);
      WordEq(IncrBy(c.word, 1), Incr(c.word));
    }
  }

  lemma RaiseOne(c: Cell)
    requires !c.Object?
    ensures IncrBy(c.word, 1) == Incr(c.word)
  {
    WordEq(IncrBy(c.word, 1), Incr(c.word));
  }

  lemma FreshStays(m: Mem, m': Mem, u: multiset<Addr>, made: set<Addr>, lim: Addr, n: Addr, a: Addr)
    requires Grown(m, m', u, made, lim, n) && IsBlock(m, a) && lim <= a && (a == n ==> IsBlock(m', n))
    ensures IsBlock(m', a) && (a != n ==> a !in u && m'.cells[a] == m.cells[a])
  {
    if a != n {
      assert Kept(m, m', a, u[a]);
      RaiseBy(m.cells[a], 0, 0);
    }
  }

  lemma HeapByrefStays(m: Mem, m': Mem, u: multiset<Addr>, made: set<Addr>, lim: Addr, n: Addr, x: Addr)
    requires Grown(m, m', u, made, lim, n) && HeapByref(m, x) && x != n
    ensures HeapByref(m', x) && m'.cells[x] == Raise(m.cells[x], u[x])
  {
    assert Kept(m, m', x, u[x]);
  }

  lemma KeptTwice(m: Mem, m1: Mem, m2: Mem, u1: multiset<Addr>, u2: multiset<Addr>, n: Addr)
    requires OldKept(m, m1, u1, n) && OldKept(m1, m2, u2, n)
    requires forall x :: x in u2 && IsByref(m2, x) ==> HeapByref(m2, x)
    requires forall x :: x in u1 && IsByref(m1, x) ==> HeapByref(m1, x)
    ensures OldKept(m, m2, u1 + u2, n)
  {
    forall x | x in m.cells && x != n ensures Kept(m, m2, x, (u1 + u2)[x]) {
      RaiseBy(m.cells[x], u1[x], u2[x]);
      RaiseBy(m1.cells[x], u2[x], 0);
      assert Kept(m, m1, x, u1[x]) && Kept(m1, m2, x, u2[x]);
    }
  }

  lemma SharedTwice(m1: Mem, m2: Mem, u1: multiset<Addr>, u2: multiset<Addr>, made2: set<Addr>, lim: Addr, n: Addr)
    requires n == NULL || (IsBlock(m1, n) && IsBlock(m2, n))
    requires NULL !in m1.cells && SharedFit(m1, u1, lim) && Grown(m1, m2, u2, made2, lim, n)
    ensures SharedFit(m2, u1 + u2, lim)
  {
    forall x | x in u1 + u2
      ensures x in m2.cells && (IsBlock(m2, x) ==> x < lim) && (IsByref(m2, x) ==> HeapByref(m2, x))
    {
      if x !in u2 && x != n {
        assert Kept(m1, m2, x, 0);
        if IsByref(m1, x) { HeapByrefStays(m1, m2, u2, made2, lim, n, x); }
      }
    }
  }

  /** Growing twice adds up. */
  lemma GrownTwice(m: Mem, m1: Mem, m2: Mem, u1: multiset<Addr>, made1: set<Addr>,
                   u2: multiset<Addr>, made2: set<Addr>, lim: Addr, n: Addr)
    requires n == NULL || (IsBlock(m, n) && IsBlock(m1, n) && IsBlock(m2, n))
    requires NULL !in m1.cells && lim <= m.next
    requires Grown(m, m1, u1, made1, lim, n) && Grown(m1, m2, u2, made2, lim, n)
    ensures Grown(m, m2, u1 + u2, made1 + made2, lim, n)
  {
    KeptTwice(m, m1, m2, u1, u2, n);
    NewTwice(m, m1, m2, u1, made1, u2, made2, lim, n);
    SharedTwice(m1, m2, u1, u2, made2, lim, n);
    forall a | a in made1 ensures IsBlock(m2, a) { FreshStays(m1, m2, u2, made2, lim, n, a); }
  }

  lemma NewTwice(m: Mem, m1: Mem, m2: Mem, u1: multiset<Addr>, made1: set<Addr>,
                 u2: multiset<Addr>, made2: set<Addr>, lim: Addr, n: Addr)
    requires n == NULL || (IsBlock(m, n) && IsBlock(m1, n) && IsBlock(m2, n))
    requires NULL !in m1.cells && lim <= m.next
    requires Grown(m, m1, u1, made1, lim, n) && Grown(m1, m2, u2, made2, lim, n)
    ensures NewMoved(m, m2, u1 + u2, made1 + made2)
  {
    forall x | x in m2.cells && x !in m.cells
      ensures m.next <= x && (x in made1 + made2 || MovedTo(m, m2, x, (u1 + u2)[x]))
    {
      if x in m1.cells && x !in made1 {
        MovedBefore(m, m1, m2, u1[x], u2, made2, lim, n, x);
      } else if x !in m1.cells && x !in made2 {
        MovedAfter(m, m1, m2, u1, made1, u2, made2, lim, n, x);
      }
    }
  }

  lemma MovedBefore(m: Mem, m1: Mem, m2: Mem, k: nat, u2: multiset<Addr>, made2: set<Addr>, lim: Addr, n: Addr, x: Addr)
    requires n == NULL || IsBlock(m1, n)
    requires NULL !in m1.cells && Grown(m1, m2, u2, made2, lim, n)
    requires m.cells.Keys <= m1.cells.Keys && x !in m.cells && x in m1.cells && MovedTo(m, m1, x, k)
    ensures MovedTo(m, m2, x, k + u2[x])
  {
    HeapByrefStays(m1, m2, u2, made2, lim, n, x);
    var s :| s in m.cells && IsByref(m1, s) && m1.cells[s].forwarding == x;
    assert Kept(m1, m2, s, u2[s]);
    assert IsByref(m2, s) && m2.cells[s].forwarding == x;
  }

  lemma MovedAfter(m: Mem, m1: Mem, m2: Mem, u1: multiset<Addr>, made1: set<Addr>,
                   u2: multiset<Addr>, made2: set<Addr>, lim: Addr, n: Addr, x: Addr)
    requires n == NULL || (IsBlock(m, n) && IsBlock(m1, n) && IsBlock(m2, n))
    requires NULL !in m1.cells && lim <= m.next
    requires Grown(m, m1, u1, made1, lim, n) && Grown(m1, m2, u2, made2, lim, n)
    requires x !in m1.cells && x !in made2 && x in m2.cells
    ensures MovedTo(m, m2, x, u1[x] + u2[x])
  {
    assert MovedTo(m1, m2, x, u2[x]) && x !in u1;
    var s :| s in m1.cells && IsByref(m2, s) && m2.cells[s].forwarding == x;
    if s in made1 {
      FreshStays(m1, m2, u2, made2, lim, n, s);
    } else if s !in m.cells {
      HeapByrefStays(m1, m2, u2, made2, lim, n, s);
    }
  }

  /** The heap copy n carries the field flags of stack Block b. */
  ghost predicate CopyOf(m: Mem, b: Addr, n: Addr) {
    && b in m.prog && IsBlock(m, n) && |m.cells[n].fields| == |m.prog[b].fields|
    && forall j :: 0 <= j < |m.prog[b].fields| ==> m.cells[n].fields[j].flags == m.prog[b].fields[j].flags
  }

  /** Heap Block n is the copy of stack Block b: one reference, the high half of
      the flags word with the needs-free bit set, the same kinds of fields. */
  ghost predicate HeapCopy(m: Mem, b: Addr, n: Addr) {
    && CopyOf(m, b, n) && n !in m.prog && Count(m.cells[n].word) == 1
    && Upper(m.cells[n].word) == Upper(m.prog[b].word) + if NeedsFree(m.prog[b].word) then 0 else 0x100
  }

  /** What assigning field f must come to, in memory m after it: pointer p and
      tree t. A captured stack Block that is not global has a heap copy of its
      own, at an address from lo on, whose fields mirror the stack Block's in
      turn; there is none only if an allocation from lo on failed. Everything
      else is shared or plainly copied. */
  ghost predicate Mirrors(m: Mem, lo: Addr, f: Field, p: Addr, t: Copied)
    decreases t
  {
    && t.a == p
    && match OnAssign(f.flags)
       case Nothing => t.Inert? && p == f.target
       case Retain => p == f.target && if p == NULL then t.Inert? else t.Shared?
       case ShareByref => t.Shared? && HeapByref(m, p) && IsByref(m, f.target) && m.cells[f.target].forwarding == p
       case CopyBlock =>
         if f.target == NULL || (f.target in m.prog && IsGlobal(m.prog[f.target].word)) then t.Inert? && p == f.target
         else if f.target !in m.prog then t.Shared? && p == f.target
         else if t.Inert? then p == NULL && exists x :: lo <= x < m.next && x in m.fails
         else t.Fresh? && lo <= p && p !in m.fails && HeapCopy(m, f.target, p) && Inherits(m, lo, f.target, p, t)
  }

  /** The fields of heap copy n mirror those of stack Block b, or are the same if
      b has no copy helper. */
  ghost predicate Inherits(m: Mem, lo: Addr, b: Addr, n: Addr, t: Copied)
    requires CopyOf(m, b, n) && t.Fresh?
    decreases t, 0
  {
    if !HasCopyDispose(m.prog[b].word) then t.kids == [] && m.cells[n].fields == m.prog[b].fields
    else
      && |t.kids| == |m.prog[b].fields|
      && forall j :: 0 <= j < |t.kids| ==>
           Mirrors(m, lo, m.prog[b].fields[j], m.cells[n].fields[j].target, t.kids[j])
  }

  /** Assigning one field took the reference behind tree t and nothing else, and
      t is what the field calls for. */
  ghost predicate Took(m: Mem, m': Mem, f: Field, p: Addr, t: Copied, lim: Addr) {
    && Ready(m', lim)
    && Grown(m, m', Held([t]), FreshOf([t]), lim, NULL)
    && Stands(m', [Field(f.flags, p)], [t])
    && Mirrors(m', m.next, f, p, t)
  }

  /** Each tree of a forest is part of it. */
  lemma {:induction false} KidInForest(ts: seq<Copied>, j: nat)
    requires j < |ts|
    ensures FreshOf([ts[j]]) <= FreshOf(ts)
  {
    SplitForest(ts);
    if j > 0 {
      assert ts[j] == ts[1..][j - 1];
      KidInForest(ts[1..], j - 1);
    }
  }

  /** Later steps leave the tree as it is, if they leave its fresh Blocks and
      its byrefs alone. */
  lemma {:induction false} MirrorsLater(m: Mem, m': Mem, lo: Addr, lo': Addr, f: Field, p: Addr, t: Copied)
    requires Mirrors(m, lo, f, p, t) && lo' <= lo && m'.prog == m.prog && m'.fails == m.fails && m.next <= m'.next
    requires forall a :: a in FreshOf([t]) && a in m.cells ==> a in m'.cells && m'.cells[a] == m.cells[a]
    requires forall x :: IsByref(m, x) ==> ByrefStays(m, m', x)
    ensures Mirrors(m', lo', f, p, t)
    decreases t
  {
    ForestOfOne(t);
    if OnAssign(f.flags).ShareByref? {
      assert ByrefStays(m, m', p) && ByrefStays(m, m', f.target);
    }
    if t.Fresh? {
      assert p in FreshOf([t]);
      if HasCopyDispose(m.prog[f.target].word) {
        forall j | 0 <= j < |t.kids|
          ensures Mirrors(m', lo', m.prog[f.target].fields[j], m.cells[p].fields[j].target, t.kids[j])
        {
          KidInForest(t.kids, j);
          MirrorsLater(m, m', lo, lo', m.prog[f.target].fields[j], m.cells[p].fields[j].target, t.kids[j]);
        }
      }
    }
  }

  /** A byref that has moved, or is on the heap, stays where it is. */
  ghost predicate ByrefStays(m: Mem, m': Mem, x: Addr)
    requires IsByref(m, x)
  {
    && (HeapByref(m, x) ==> HeapByref(m', x))
    && (HeapByref(m, m.cells[x].forwarding) ==> IsByref(m', x) && m'.cells[x].forwarding == m.cells[x].forwarding)
  }

  lemma ByrefsStay(m: Mem, m': Mem, u: multiset<Addr>, made: set<Addr>, lim: Addr, n: Addr)
    requires Grown(m, m', u, made, lim, n) && !IsByref(m, n)
    ensures forall x :: IsByref(m, x) ==> ByrefStays(m, m', x)
  {
    forall x | IsByref(m, x) ensures ByrefStays(m, m', x) {
      assert Kept(m, m', x, u[x]);
      if HeapByref(m, x) { HeapByrefStays(m, m', u, made, lim, n, x); }
    }
  }

  lemma ForestOfOne(t: Copied)
    ensures t.Inert? ==> Held([t]) == multiset{} && FreshOf([t]) == {}
    ensures t.Shared? ==> Held([t]) == multiset{t.a} && FreshOf([t]) == {}
    ensures t.Fresh? ==> Held([t]) == Held(t.kids) && FreshOf([t]) == {t.a} + FreshOf(t.kids)
  {
    assert [t][0] == t;
    SplitForest([t]);
  }

  lemma NothingGrown(m: Mem, m': Mem, lim: Addr)
    requires m' == m || m' == m.(next := m.next + 1)
    ensures Grown(m, m', multiset{}, {}, lim, NULL)
  {
    forall x | x in m.cells ensures Kept(m, m', x, 0) { RaiseBy(m.cells[x], 0, 0); }
  }

  /** One more reference on an existing heap Block, heap byref or object. */
  lemma OneRaised(m: Mem, a: Addr, lim: Addr)
    requires Ready(m, lim) && a in m.cells && (IsByref(m, a) ==> HeapByref(m, a)) && (IsBlock(m, a) ==> a < lim)
    ensures var m' := m.(cells := m.cells[a := Raise(m.cells[a], 1)]);
      Ready(m', lim) && Grown(m, m', multiset{a}, {}, lim, NULL)
  {
    var m' := m.(cells := m.cells[a := Raise(m.cells[a], 1)]);
    forall x | x in m.cells ensures Kept(m, m', x, multiset{a}[x]) { RaiseBy(m.cells[x], 0, 0); }
    forall x | IsByref(m', x) ensures ByrefOk(m', x) { assert ByrefOk(m, x); }
    forall b, i | b in m.prog && 0 <= i < |m.prog[b].fields| ensures FieldReady(m', m.prog[b].fields[i], lim) {
      assert FieldReady(m, m.prog[b].fields[i], lim);
    }
  }

  /** A stack byref moves to the heap: one reference for the stack, one for the caller. */
  lemma ByrefMoves(m: Mem, src: Addr, lim: Addr)
    requires Ready(m, lim) && IsByref(m, src) && Count(m.cells[m.cells[src].forwarding].word) == 0
    ensures var (h, m') := ByrefAssignCopy(m, src);
      Ready(m', lim) && Grown(m, m', multiset{h}, {}, lim, NULL) && HeapByref(m', h) && h !in m.prog && h != NULL
  {
    assert ByrefOk(m, src);
    var (h, m') := ByrefAssignCopy(m, src);
    forall x | x in m.cells ensures Kept(m, m', x, multiset{h}[x]) { RaiseBy(m.cells[x], 0, 0); }
    assert IsByref(m', src) && m'.cells[src].forwarding == h;
    forall x | IsByref(m', x) ensures ByrefOk(m', x) {
      if x != h { assert ByrefOk(m, x); }
    }
    forall b, i | b in m.prog && 0 <= i < |m.prog[b].fields| ensures FieldReady(m', m.prog[b].fields[i], lim) {
      assert FieldReady(m, m.prog[b].fields[i], lim);
    }
  }

  lemma TookByref(m: Mem, f: Field, lim: Addr) returns (t: Copied)
    requires Ready(m, lim) && FieldReady(m, f, lim) && OnAssign(f.flags).ShareByref?
    ensures var (p, m') := ByrefAssignCopy(m, f.target); t == Shared(p) && Took(m, m', f, p, t, lim)
  {
    var (p, m') := ByrefAssignCopy(m, f.target);
    assert ByrefOk(m, f.target);
    t := Shared(p);
    ForestOfOne(t);
    var h := m.cells[f.target].forwarding;
    if Count(m.cells[h].word) == 0 {
      ByrefMoves(m, f.target, lim);
    } else {
      RaiseOne(m.cells[h]);
      OneRaised(m, h, lim);
    }
  }

  lemma {:induction false} TookField(m: Mem, f: Field, rank: map<Addr, nat>, lim: Addr) returns (t: Copied)
    requires Acyclic(m.prog, rank) && Ready(m, lim) && FieldReady(m, f, lim)
    ensures var (p, m') := AssignField(m, f, rank); t.a == p && Took(m, m', f, p, t, lim)
    decreases Height(m.prog, rank, f.target), 2, 0
  {
    match OnAssign(f.flags)
    case Nothing =>
      t := Inert(f.target);
      ForestOfOne(t);
      NothingGrown(m, m, lim);
    case ShareByref =>
      t := TookByref(m, f, lim);
    case Retain =>
      t := TookObject(m, f, lim);
    case CopyBlock =>
      if f.target == NULL || f.target in m.prog {
        t := TookProto(m, f, rank, lim);
      } else {
        t := Shared(f.target);
        ForestOfOne(t);
        RaiseOne(m.cells[f.target]);
        OneRaised(m, f.target, lim);
      }
  }

  lemma TookObject(m: Mem, f: Field, lim: Addr) returns (t: Copied)
    requires Ready(m, lim) && FieldReady(m, f, lim) && OnAssign(f.flags).Retain?
    ensures t.a == f.target && Took(m, RetainObject(m, f.target), f, f.target, t, lim)
  {
    t := if f.target == NULL then Inert(NULL) else Shared(f.target);
    ForestOfOne(t);
    if f.target == NULL {
      NothingGrown(m, m, lim);
    } else {
      OneRaised(m, f.target, lim);
    }
  }

  /** NULL, a global Block, a stack Block that cannot be copied, or one that can. */
  lemma {:induction false} TookProto(m: Mem, f: Field, rank: map<Addr, nat>, lim: Addr) returns (t: Copied)
    requires Acyclic(m.prog, rank) && Ready(m, lim) && FieldReady(m, f, lim)
    requires OnAssign(f.flags).CopyBlock? && (f.target == NULL || f.target in m.prog)
    ensures var (p, m') := Copy(m, f.target, rank); t.a == p && Took(m, m', f, p, t, lim)
    decreases Height(m.prog, rank, f.target), 1, 0
  {
    var b := f.target;
    if b == NULL || IsGlobal(m.prog[b].word) || m.next in m.fails {
      var (p, m') := Copy(m, b, rank);
      t := Inert(p);
      ForestOfOne(t);
      NothingGrown(m, m', lim);
      StillReady(m, m', lim);
    } else {
      t := TookFresh(m, f, rank, lim);
    }
  }

  /** Ready does not look at the fields of heap Blocks, nor mind new heap Blocks. */
  lemma StillReady(m: Mem, m': Mem, lim: Addr)
    requires Ready(m, lim) && m'.prog == m.prog && m.next <= m'.next
    requires forall x :: x in m.cells ==>
      x in m'.cells && (m'.cells[x] == m.cells[x] || (IsBlock(m, x) && IsBlock(m', x)))
    requires forall x :: x in m'.cells && x !in m.cells ==> m.next <= x < m'.next && IsBlock(m', x)
    requires forall x :: IsBlock(m', x) ==> Count(m'.cells[x].word) > 0
    ensures Ready(m', lim)
  {
    forall x | IsByref(m', x) ensures ByrefOk(m', x) { assert ByrefOk(m, x); }
    forall b, i | b in m.prog && 0 <= i < |m.prog[b].fields| ensures FieldReady(m', m.prog[b].fields[i], lim) {
      assert FieldReady(m, m.prog[b].fields[i], lim);
    }
  }

  lemma {:induction false} TookFresh(m: Mem, f: Field, rank: map<Addr, nat>, lim: Addr) returns (t: Copied)
    requires Acyclic(m.prog, rank) && Ready(m, lim) && FieldReady(m, f, lim)
    requires OnAssign(f.flags).CopyBlock? && f.target in m.prog
    requires !IsGlobal(m.prog[f.target].word) && m.next !in m.fails
    ensures var (p, m') := Copy(m, f.target, rank); t.a == p && Took(m, m', f, p, t, lim)
    decreases Height(m.prog, rank, f.target), 0, |m.prog[f.target].fields| + 1
  {
    var b, n := f.target, m.next;
    var m1 := BitCopy(m, b);
    StillReady(m, m1, lim);
    var kids := [];
    var m2 := m1;
    if HasCopyDispose(m1.cells[n].word) {
      kids := TookFields(m1, b, n, 0, rank, lim);
      m2 := CopyFields(m1, b, n, 0, rank);
      assert m2.cells[n].fields[0..] == m2.cells[n].fields;
    } else {
      NothingGrown(m1, m1, lim);
      assert Grown(m1, m1, multiset{}, {}, lim, n);
    }
    t := Fresh(n, kids);
    ForestOfOne(t);
    FreshTook(m, m1, m2, b, kids, lim);
    FreshMirrors(m, m2, f, kids, lim);
    hide Mirrors;
    FreshStands(m, m2, f, kids, lim);
    hide Grown, Stands;
  }

  lemma FreshStands(m: Mem, m2: Mem, f: Field, kids: seq<Copied>, lim: Addr)
    requires OnDispose(f.flags).CopyBlock? && f.target in m.prog && Ready(m, lim)
    requires var m1 := BitCopy(m, f.target);
      if HasCopyDispose(m1.cells[m.next].word) then FieldsTook(m1, m2, f.target, m.next, 0, kids, lim)
      else m2 == m1 && kids == []
    ensures Stands(m2, [Field(f.flags, m.next)], [Fresh(m.next, kids)])
  {
    hide Mirrors;
    var n := m.next;
    FreshAddress(m, lim);
    if HasCopyDispose(BitCopy(m, f.target).cells[n].word) {
      assert m2.cells[n].fields[0..] == m2.cells[n].fields;
    }
  }

  lemma FreshMirrors(m: Mem, m2: Mem, f: Field, kids: seq<Copied>, lim: Addr)
    requires OnAssign(f.flags).CopyBlock? && f.target in m.prog && f.target != NULL && Ready(m, lim)
    requires !IsGlobal(m.prog[f.target].word) && m.next !in m.fails
    requires var m1 := BitCopy(m, f.target);
      if HasCopyDispose(m1.cells[m.next].word) then FieldsTook(m1, m2, f.target, m.next, 0, kids, lim)
      else m2 == m1 && kids == []
    ensures Mirrors(m2, m.next, f, m.next, Fresh(m.next, kids))
  {
    hide Ready, OldKept, NewMoved, SharedFit, Stands;
    var b, n, m1 := f.target, m.next, BitCopy(m, f.target);
    FreshAddress(m, lim);
    if HasCopyDispose(m1.cells[n].word) {
      forall j | 0 <= j < |kids|
        ensures Mirrors(m2, n, m.prog[b].fields[j], m2.cells[n].fields[j].target, kids[j])
      {
        MirrorsFrom(m2, m1.next, n, m.prog[b].fields[j], m2.cells[n].fields[j].target, kids[j]);
      }
    }
  }

  lemma FreshAddress(m: Mem, lim: Addr)
    requires Ready(m, lim)
    ensures m.next !in m.prog && m.next !in m.cells && m.next != NULL
  {
  }

  lemma MirrorsFrom(m: Mem, lo: Addr, lo': Addr, f: Field, p: Addr, t: Copied)
    requires Mirrors(m, lo, f, p, t) && lo' <= lo
    ensures Mirrors(m, lo', f, p, t)
  {
    hide Mirrors;
    MirrorsLater(m, m, lo, lo', f, p, t);
  }

  lemma FreshTook(m: Mem, m1: Mem, m2: Mem, b: Addr, kids: seq<Copied>, lim: Addr)
    requires b in m.prog && m1 == BitCopy(m, b) && Ready(m, lim)
    requires IsBlock(m2, m.next) && Grown(m1, m2, Held(kids), FreshOf(kids), lim, m.next)
    ensures Grown(m, m2, Held(kids), {m.next} + FreshOf(kids), lim, NULL)
  {
    var n, u := m.next, Held(kids);
    forall x | x in m.cells ensures Kept(m, m2, x, u[x]) { assert Kept(m1, m2, x, u[x]); }
    forall x | x in m2.cells && x !in m.cells
      ensures m.next <= x && (x in {n} + FreshOf(kids) || MovedTo(m, m2, x, u[x]))
    {
      if x != n && x !in FreshOf(kids) {
        assert MovedTo(m1, m2, x, u[x]);
        var s :| s in m1.cells && IsByref(m2, s) && m2.cells[s].forwarding == x;
        assert s in m.cells;
      }
    }
  }

  /** The copy helper, from field i on, took the forest ts. */
  ghost predicate FieldsTook(m: Mem, m': Mem, b: Addr, n: Addr, i: nat, ts: seq<Copied>, lim: Addr) {
    && CopyOf(m, b, n) && Ready(m', lim) && CopyOf(m', b, n) && i <= |m.prog[b].fields|
    && m'.cells[n].word == m.cells[n].word && m'.prog == m.prog
    && Grown(m, m', Held(ts), FreshOf(ts), lim, n)
    && m'.cells[n].fields[..i] == m.cells[n].fields[..i]
    && Stands(m', m'.cells[n].fields[i..], ts)
    && |ts| == |m.prog[b].fields| - i
    && forall j :: i <= j < |m.prog[b].fields| ==>
         Mirrors(m', m.next, m.prog[b].fields[j], m'.cells[n].fields[j].target, ts[j - i])
  }

  lemma {:induction false} TookFields(m: Mem, b: Addr, n: Addr, i: nat, rank: map<Addr, nat>, lim: Addr)
    returns (ts: seq<Copied>)
    requires Acyclic(m.prog, rank) && Ready(m, lim) && CopyOf(m, b, n) && lim <= n && i <= |m.prog[b].fields|
    ensures FieldsTook(m, CopyFields(m, b, n, i, rank), b, n, i, ts, lim)
    decreases Height(m.prog, rank, b), 0, |m.prog[b].fields| - i
  {
    if i == |m.prog[b].fields| {
      ts := [];
      NothingGrown(m, m, lim);
    } else {
      var f := m.prog[b].fields[i];
      assert FieldReady(m, f, lim);
      var t := TookField(m, f, rank, lim);
      var (p, m1) := AssignField(m, f, rank);
      FieldStored(m, m1, b, n, i, p, t, lim);
      var rest := TookFields(SetField(m1, n, i, p), b, n, i + 1, rank, lim);
      ts := [t] + rest;
      TookOneMore(m, m1, CopyFields(m, b, n, i, rank), b, n, i, p, t, rest, lim);
    }
  }

  lemma FieldStored(m: Mem, m1: Mem, b: Addr, n: Addr, i: nat, p: Addr, t: Copied, lim: Addr)
    requires CopyOf(m, b, n) && lim <= n && i < |m.prog[b].fields| && Ready(m, lim)
    requires Took(m, m1, m.prog[b].fields[i], p, t, lim)
    ensures m1.cells[n] == m.cells[n] && n !in Held([t])
    ensures Ready(SetField(m1, n, i, p), lim) && CopyOf(SetField(m1, n, i, p), b, n)
  {
    FreshStays(m, m1, Held([t]), FreshOf([t]), lim, NULL, n);
    StillReady(m1, SetField(m1, n, i, p), lim);
  }

  /** Storing the pointer changes only Block n. */
  lemma SetGrown(m: Mem, m1: Mem, u: multiset<Addr>, made: set<Addr>, lim: Addr, n: Addr, i: nat, p: Addr)
    requires Grown(m, m1, u, made, lim, NULL) && NULL !in m.cells
    requires IsBlock(m, n) && IsBlock(m1, n) && i < |m1.cells[n].fields|
    ensures Grown(m, SetField(m1, n, i, p), u, made, lim, n)
  {
    var m2 := SetField(m1, n, i, p);
    forall x | x in m.cells && x != n ensures Kept(m, m2, x, u[x]) { assert Kept(m, m1, x, u[x]); }
    forall x | x in m2.cells && x !in m.cells && x !in made ensures MovedTo(m, m2, x, u[x]) {
      assert MovedTo(m, m1, x, u[x]);
      var s :| s in m.cells && IsByref(m1, s) && m1.cells[s].forwarding == x;
      assert IsByref(m2, s) && m2.cells[s].forwarding == x;
    }
  }

  /** A tree that stands keeps standing while memory grows elsewhere. */
  lemma StandsLater(m: Mem, m': Mem, u: multiset<Addr>, made: set<Addr>, lim: Addr, n: Addr,
                    fs: seq<Field>, ts: seq<Copied>)
    requires Grown(m, m', u, made, lim, n) && IsBlock(m, n) && IsBlock(m', n)
    requires Stands(m, fs, ts) && SharedFit(m, Held(ts), lim)
    requires forall a :: a in FreshOf(ts) ==> IsBlock(m, a) && lim <= a && a != n
    ensures Stands(m', fs, ts)
  {
    forall a | a in FreshOf(ts) ensures a in m'.cells && m'.cells[a] == m.cells[a] {
      FreshStays(m, m', u, made, lim, n, a);
    }
    forall x | x in Held(ts) ensures SameKind(m, m', x) {
      if x != n {
        assert Kept(m, m', x, u[x]);
        if IsByref(m, x) { HeapByrefStays(m, m', u, made, lim, n, x); }
      }
    }
    StandsFrame(m, m', fs, ts);
  }

  lemma ConsForest(t: Copied, rest: seq<Copied>)
    ensures Held([t] + rest) == Held([t]) + Held(rest) && FreshOf([t] + rest) == FreshOf([t]) + FreshOf(rest)
  {
    assert ([t] + rest)[0] == t && ([t] + rest)[1..] == rest;
    SplitForest([t] + rest);
  }

  lemma StandsCons(m: Mem, f: Field, t: Copied, fs: seq<Field>, rest: seq<Copied>)
    requires Stands(m, [f], [t]) && Stands(m, fs, rest) && FreshOf([t]) !! FreshOf(rest)
    ensures Stands(m, [f] + fs, [t] + rest)
  {
    ForestOfOne(t);
    assert ([f] + fs)[1..] == fs && ([t] + rest)[1..] == rest;
    assert ([f] + fs)[0] == [f][0] && ([t] + rest)[0] == [t][0];
  }

  lemma StandsAfterSet(m: Mem, n: Addr, i: nat, p: Addr, fs: seq<Field>, ts: seq<Copied>, lim: Addr)
    requires Stands(m, fs, ts) && IsBlock(m, n) && i < |m.cells[n].fields| && n !in FreshOf(ts)
    requires SharedFit(m, Held(ts), lim)
    ensures Stands(SetField(m, n, i, p), fs, ts) && SharedFit(SetField(m, n, i, p), Held(ts), lim)
  {
    StandsFrame(m, SetField(m, n, i, p), fs, ts);
  }

  /** The tree of one field still stands once the later fields are assigned. */
  lemma TreeStillStands(m: Mem, m1: Mem, m': Mem, n: Addr, i: nat, p: Addr, fs: seq<Field>,
                        ts: seq<Copied>, u: multiset<Addr>, made: set<Addr>, lim: Addr)
    requires Grown(m, m1, Held(ts), FreshOf(ts), lim, NULL) && Stands(m1, fs, ts) && lim <= m.next
    requires IsBlock(m1, n) && n < m.next && i < |m1.cells[n].fields|
    requires Grown(SetField(m1, n, i, p), m', u, made, lim, n) && IsBlock(m', n)
    requires forall x :: x in m1.cells ==> x < m1.next
    ensures Stands(m', fs, ts) && FreshOf(ts) !! made
  {
    StandsAfterSet(m1, n, i, p, fs, ts, lim);
    StandsLater(SetField(m1, n, i, p), m', u, made, lim, n, fs, ts);
  }

  lemma TookOneMore(m: Mem, m1: Mem, m': Mem, b: Addr, n: Addr, i: nat, p: Addr,
                    t: Copied, rest: seq<Copied>, lim: Addr)
    requires CopyOf(m, b, n) && lim <= n && i < |m.prog[b].fields| && Ready(m, lim)
    requires Took(m, m1, m.prog[b].fields[i], p, t, lim)
    requires FieldsTook(SetField(m1, n, i, p), m', b, n, i + 1, rest, lim)
    ensures FieldsTook(m, m', b, n, i, [t] + rest, lim)
  {
    MirrorsOneMore(m, m1, m', b, n, i, p, t, rest, lim);
    hide Mirrors;
    var m2 := SetField(m1, n, i, p);
    var f := Field(m.prog[b].fields[i].flags, p);
    FieldStored(m, m1, b, n, i, p, t, lim);
    assert Stands(m', m'.cells[n].fields[i..], [t] + rest) by {
      FieldsSplit(m2.cells[n].fields, m'.cells[n].fields, i);
      TreeStillStands(m, m1, m', n, i, p, [f], [t], Held(rest), FreshOf(rest), lim);
      StandsCons(m', f, t, m'.cells[n].fields[i + 1..], rest);
    }
    assert Grown(m, m', Held([t] + rest), FreshOf([t] + rest), lim, n) by {
      ConsForest(t, rest);
      SetGrown(m, m1, Held([t]), FreshOf([t]), lim, n, i, p);
      GrownTwice(m, m2, m', Held([t]), FreshOf([t]), Held(rest), FreshOf(rest), lim, n);
    }
    FieldsSplit(m2.cells[n].fields, m'.cells[n].fields, i);
  }

  lemma MirrorsOneMore(m: Mem, m1: Mem, m': Mem, b: Addr, n: Addr, i: nat, p: Addr,
                       t: Copied, rest: seq<Copied>, lim: Addr)
    requires CopyOf(m, b, n) && lim <= n && i < |m.prog[b].fields| && Ready(m, lim)
    requires Took(m, m1, m.prog[b].fields[i], p, t, lim)
    requires FieldsTook(SetField(m1, n, i, p), m', b, n, i + 1, rest, lim)
    ensures |[t] + rest| == |m.prog[b].fields| - i
    ensures forall j :: i <= j < |m.prog[b].fields| ==>
      Mirrors(m', m.next, m.prog[b].fields[j], m'.cells[n].fields[j].target, ([t] + rest)[j - i])
  {
    hide Mirrors, Stands, Grown, Ready;
    MirrorsFirst(m, m1, m', b, n, i, p, t, rest, lim);
    NextGrows(m, m1, m.prog[b].fields[i], p, t, lim, n, i);
    var m2 := SetField(m1, n, i, p);
    forall j | i < j < |m.prog[b].fields|
      ensures Mirrors(m', m.next, m.prog[b].fields[j], m'.cells[n].fields[j].target, ([t] + rest)[j - i])
    {
      MirrorsFrom(m', m2.next, m.next, m.prog[b].fields[j], m'.cells[n].fields[j].target, rest[j - (i + 1)]);
    }
  }

  lemma NextGrows(m: Mem, m1: Mem, f: Field, p: Addr, t: Copied, lim: Addr, n: Addr, i: nat)
    requires Took(m, m1, f, p, t, lim)
    ensures m.next <= SetField(m1, n, i, p).next && SetField(m1, n, i, p).prog == m.prog
  {
    hide Mirrors, Stands, Ready, OldKept, NewMoved, SharedFit;
  }

  lemma MirrorsFirst(m: Mem, m1: Mem, m': Mem, b: Addr, n: Addr, i: nat, p: Addr,
                     t: Copied, rest: seq<Copied>, lim: Addr)
    requires CopyOf(m, b, n) && lim <= n && i < |m.prog[b].fields| && Ready(m, lim)
    requires Took(m, m1, m.prog[b].fields[i], p, t, lim)
    requires FieldsTook(SetField(m1, n, i, p), m', b, n, i + 1, rest, lim)
    ensures Mirrors(m', m.next, m.prog[b].fields[i], m'.cells[n].fields[i].target, t)
  {
    hide Mirrors, Stands, OldKept, NewMoved, SharedFit, ByrefStays;
    var m2 := SetField(m1, n, i, p);
    FieldStored(m, m1, b, n, i, p, t, lim);
    FieldsSplit(m2.cells[n].fields, m'.cells[n].fields, i);
    TreeStays(m, m1, m', n, i, p, t, Held(rest), FreshOf(rest), lim);
    hide FieldsTook;
    MirrorsLater(m1, m', m.next, m.next, m.prog[b].fields[i], p, t);
  }

  /** What one field's tree is made of stays while the later fields are assigned. */
  lemma TreeStays(m: Mem, m1: Mem, m': Mem, n: Addr, i: nat, p: Addr, t: Copied,
                  u: multiset<Addr>, made: set<Addr>, lim: Addr)
    requires Grown(m, m1, Held([t]), FreshOf([t]), lim, NULL) && lim <= m.next
    requires IsBlock(m1, n) && n < m.next && i < |m1.cells[n].fields|
    requires Grown(SetField(m1, n, i, p), m', u, made, lim, n) && IsBlock(m', n)
    ensures forall a :: a in FreshOf([t]) && a in m1.cells ==> a in m'.cells && m'.cells[a] == m1.cells[a]
    ensures forall x :: IsByref(m1, x) ==> ByrefStays(m1, m', x)
  {
    var m2 := SetField(m1, n, i, p);
    forall a | a in FreshOf([t]) && a in m1.cells ensures a in m'.cells && m'.cells[a] == m1.cells[a] {
      FreshStays(m2, m', u, made, lim, n, a);
    }
    ByrefsStay(m2, m', u, made, lim, n);
    forall x | IsByref(m1, x) ensures ByrefStays(m1, m', x) { assert ByrefStays(m2, m', x); }
  }

  lemma FieldsSplit(before: seq<Field>, after: seq<Field>, i: nat)
    requires i < |before| == |after| && after[..i + 1] == before[..i + 1]
    ensures after[..i] == before[..i] && after[i..] == [before[i]] + after[i + 1..]
  {
    assert after[i] == after[..i + 1][i] == before[i];
    assert after[..i] == after[..i + 1][..i] == before[..i + 1][..i];
  }

  // ------------------------------------------------------------- round trip

  lemma TreeCanDrop(m: Mem, m1: Mem, f: Field, p: Addr, t: Copied)
    requires Ready(m, m.next) && Took(m, m1, f, p, t, m.next)
    ensures Spare(m1, Held([t]), FreshOf([t]))
  {
    var u := Held([t]);
    forall x | x in m1.cells && x in u ensures Plenty(m1.cells[x], u[x]) {
      if x in m.cells {
        assert Kept(m, m1, x, u[x]);
        if IsByref(m, x) { assert ByrefOk(m, x); }
      }
    }
  }

  /** After the round trip cell x is as before, or its count latched on the
      way, or it is a stack byref that has moved to a new heap cell. */
  ghost predicate Restored(m: Mem, m1: Mem, m2: Mem, x: Addr)
    requires x in m.cells
  {
    && x in m2.cells
    && (|| m2.cells[x] == m.cells[x]
        || (x in m1.cells && !m.cells[x].Object? && m2.cells[x] == m1.cells[x] == Raise(m.cells[x], REFCOUNT_MASK))
        || Moved(m, m2, x))
  }

  lemma LowerRaised(c: Cell, k: nat)
    requires !c.Object? ==> k == 0 || Count(c.word) > 0
    ensures Lower(Raise(c, k), k) == c ||
            (!c.Object? && Lower(Raise(c, k), k) == Raise(c, k) == Raise(c, REFCOUNT_MASK))
  {
    if !c.Object? {
      if Latched(IncrBy(c.word, k)) {
        WordEq(IncrBy(c.word, k), IncrBy(c.word, REFCOUNT_MASK));
      } else {
        WordEq(DecrBy(IncrBy(c.word, k), k), c.word);
      }
    }
  }

  ghost predicate RoundTripped(m: Mem, m1: Mem, m2: Mem) {
    && m2.bad == m.bad
    && (forall x :: x in m.cells ==> Restored(m, m1, m2, x))
    && (forall x :: x in m2.cells && x !in m.cells ==>
          MovedTo(m, m2, x, 0) || (HeapByref(m2, x) && Latched(m2.cells[x].word)))
  }

  /** What _Block_copy answers, and does to Block b itself: nothing for NULL and
      for a global Block, one more reference for a heap Block, and for a stack
      Block a new heap Block, or NULL if the allocation fails. */
  ghost predicate CopyAnswers(m: Mem, m': Mem, b: Addr, r: Addr) {
    && (r == NULL <==> b == NULL || (b in m.prog && !IsGlobal(m.prog[b].word) && m.next in m.fails))
    && (r == b <==> b == NULL || b !in m.prog || IsGlobal(m.prog[b].word))
    && (b == NULL || (b in m.prog && IsGlobal(m.prog[b].word)) ==> m' == m)
    && (IsBlock(m, b) ==>
          && IsBlock(m', b) && m' == m.(cells := m.cells[b := Block(m'.cells[b].word, m.cells[b].fields)])
          && Upper(m'.cells[b].word) == Upper(m.cells[b].word)
          && Count(m'.cells[b].word) == if Latched(m.cells[b].word) then REFCOUNT_MASK else Count(m.cells[b].word) + 1)
    && (b in m.prog && r != b && r != NULL ==>
          && r == m.next && r !in m.cells && HeapCopy(m', b, r)
          && (!HasCopyDispose(m.prog[b].word) ==> m'.cells[r].fields == m.prog[b].fields))
  }

  lemma CopyIsRight(m: Mem, b: Addr, rank: map<Addr, nat>, t: Copied)
    requires Acyclic(m.prog, rank) && Ready(m, m.next)
    requires b == NULL || b in m.prog || IsBlock(m, b)
    requires var (r, m') := Copy(m, b, rank); Took(m, m', Field(7, b), r, t, m.next)
    ensures var (r, m') := Copy(m, b, rank); CopyAnswers(m, m', b, r)
  {
    hide Grown, Stands;
    var (r, m') := Copy(m, b, rank);
    assert OnAssign(Field(7, b).flags).CopyBlock?;
    FreshAddress(m, m.next);
    if IsBlock(m, b) { assert IsBlock(m', b); }
  }

  /** _Block_copy then _Block_release, on any acyclic nest of captures and with
      malloc failing anywhere: every earlier cell is restored up to latched
      counts and moved byrefs; of everything the copy allocated only moved
      byrefs remain, each holding just the stack's share; nothing underflows
      and no dead memory is reached. */
  lemma CopyThenRelease(m: Mem, b: Addr, rank: map<Addr, nat>)
    requires Acyclic(m.prog, rank) && Ready(m, m.next)
    requires b == NULL || b in m.prog || IsBlock(m, b)
    ensures var (r, m1) := Copy(m, b, rank); CopyAnswers(m, m1, b, r) && RoundTripped(m, m1, Release(m1, r))
  {
    var f := Field(7, b);
    var t := TookField(m, f, rank, m.next);
    var (r, m1) := AssignField(m, f, rank);
    assert Took(m, m1, f, r, t, m.next);
    CopyIsRight(m, b, rank, t);
    hide CopyAnswers, Mirrors;
    TreeCanDrop(m, m1, f, r, t);
    DisposeTree(m1, [Field(7, r)], [t]);
    assert DisposeField(m1, Field(7, r)) == Release(m1, r);
    GrownAndDropped(m, m1, Release(m1, r), Held([t]), FreshOf([t]));
  }

  lemma GrownAndDropped(m: Mem, m1: Mem, m2: Mem, u: multiset<Addr>, made: set<Addr>)
    requires Ready(m, m.next) && Grown(m, m1, u, made, m.next, NULL) && Dropped(m1, m2, u, made)
    requires Ready(m1, m.next)
    ensures RoundTripped(m, m1, m2)
  {
    forall x | x in m.cells ensures Restored(m, m1, m2, x) {
      assert Kept(m, m1, x, u[x]);
      if Moved(m, m1, x) { assert ByrefOk(m1, x); }
      OldRestored(m, m1, m2, u, x);
    }
    forall x | x in m2.cells && x !in m.cells
      ensures MovedTo(m, m2, x, 0) || (HeapByref(m2, x) && Latched(m2.cells[x].word))
    {
      assert MovedTo(m, m1, x, u[x]);
      NewRestored(m, m1, m2, u, made, x);
    }
  }

  lemma OldRestored(m: Mem, m1: Mem, m2: Mem, u: multiset<Addr>, x: Addr)
    requires x in m.cells && Kept(m, m1, x, u[x]) && Ready(m, m.next) && SharedFit(m1, u, m.next)
    requires x in m2.cells && m2.cells[x] == Lower(m1.cells[x], u[x])
    requires Moved(m, m1, x) ==> m1.cells[x].forwarding in m2.cells
    ensures Restored(m, m1, m2, x)
  {
    if m1.cells[x] == Raise(m.cells[x], u[x]) {
      if IsByref(m, x) { assert ByrefOk(m, x); }
      LowerRaised(m.cells[x], u[x]);
    } else {
      LowerZero(m1.cells[x]);
    }
  }

  lemma NewRestored(m: Mem, m1: Mem, m2: Mem, u: multiset<Addr>, made: set<Addr>, x: Addr)
    requires MovedTo(m, m1, x, u[x]) && Dropped(m1, m2, u, made) && x in m2.cells
    requires forall a :: a in made ==> IsBlock(m1, a)
    ensures MovedTo(m, m2, x, 0) || (HeapByref(m2, x) && Latched(m2.cells[x].word))
  {
    var s :| s in m.cells && IsByref(m1, s) && m1.cells[s].forwarding == x;
    assert s in m2.cells && IsByref(m2, s) && m2.cells[s].forwarding == x;
  }
}
