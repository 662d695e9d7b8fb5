/** The Blocks runtime as it runs: memory is updated in place. Each entry point
    follows its function in BlockMemory and says what a caller gets: which
    references were taken or dropped, what is gone, and what stayed. */
module BlockRuntime {
  import opened BlockFlags
  import opened BlockMemory
  import opened BlockRoundTrip

  function CountPlusOne(word: nat): nat { if Latched(word) then Count(word) else Count(word) + 1 }

  /** The caller shares the variable behind src: p is its heap cell, src forwards
      to it, it has one more owner, or the stack and the caller as its first two. */
  ghost predicate SharesByref(m: Mem, m': Mem, src: Addr, p: Addr)
    requires IsByref(m, src) && ByrefOk(m, src)
  {
    var h := m.cells[src].forwarding;
    && HeapByref(m', p) && IsByref(m', src) && m'.cells[src].forwarding == p && m'.bad == m.bad
    && m'.cells[p].value == m.cells[h].value
    && (if Count(m.cells[h].word) == 0
        then p !in m.cells && Count(m'.cells[p].word) == 2
        else p == h && Count(m'.cells[p].word) == CountPlusOne(m.cells[h].word))
    && m'.cells.Keys == m.cells.Keys + {p}
    && (forall x :: x in m.cells && x != p && x != src ==> m'.cells[x] == m.cells[x])
  }

  /** One owner less of the variable behind a; its cell is gone exactly when that
      was the last one. A variable still on the stack and a latched count stay. */
  ghost predicate DropsByref(m: Mem, m': Mem, a: Addr)
    requires IsByref(m, a) && ByrefOk(m, a)
  {
    var h := m.cells[a].forwarding;
    && m' == m.(cells := m'.cells)
    && (h !in m'.cells <==> Count(m.cells[h].word) == 1)
    && (forall x :: x in m.cells && x != h ==> x in m'.cells && m'.cells[x] == m.cells[x])
    && m'.cells.Keys <= m.cells.Keys
    && (h in m'.cells ==>
          && IsByref(m', h) && m'.cells[h].value == m.cells[h].value && m'.cells[h].forwarding == h
          && Upper(m'.cells[h].word) == Upper(m.cells[h].word)
          && Count(m'.cells[h].word) ==
               if Latched(m.cells[h].word) || Count(m.cells[h].word) == 0 then Count(m.cells[h].word)
               else Count(m.cells[h].word) - 1)
  }

  /** Block a is gone exactly when its last reference was released; otherwise
      its count is all that changed. */
  ghost predicate DropsBlock(m: Mem, m': Mem, a: Addr)
    requires IsBlock(m, a)
  {
    && (a !in m'.cells <==> Count(m.cells[a].word) == 1)
    && (a in m'.cells ==> m' == m.(cells := m.cells[a := Lower(m.cells[a], 1)]))
  }

  lemma SharedByref(m: Mem, src: Addr)
    requires Ready(m, m.next) && IsByref(m, src)
    ensures ByrefOk(m, src) && var (p, m') := ByrefAssignCopy(m, src); SharesByref(m, m', src, p)
  {
    assert ByrefOk(m, src);
  }

  lemma DroppedByref(m: Mem, a: Addr)
    requires IsByref(m, a) && ByrefOk(m, a)
    ensures DropsByref(m, ByrefRelease(m, a), a)
  {
  }

  lemma DroppedBlock(m: Mem, a: Addr)
    requires IsBlock(m, a) && a != NULL && a !in m.prog && Count(m.cells[a].word) > 0
    ensures DropsBlock(m, Release(m, a), a)
  {
    WordEq(DecrBy(m.cells[a].word, 1), Decr(m.cells[a].word));
  }

  /** Releasing what one field holds drops exactly the tree behind it. */
  lemma DroppedTree(m: Mem, f: Field, t: Copied)
    requires Stands(m, [f], [t]) && Spare(m, Held([t]), FreshOf([t]))
    ensures Dropped(m, DisposeField(m, f), Held([t]), FreshOf([t]))
  {
    DisposeTree(m, [f], [t]);
  }

  class Runtime {
    const prog: map<Addr, Proto>
    const fails: set<Addr>
    var cells: map<Addr, Cell>
    var next: Addr
    var bad: bool

    constructor (prog: map<Addr, Proto>, cells: map<Addr, Cell>, next: Addr, fails: set<Addr>)
      ensures State() == Mem(prog, cells, next, fails, false)
    {
      this.prog, this.fails, this.cells, this.next, this.bad := prog, fails, cells, next, false;
    }

    function State(): Mem
      reads this
    {
      Mem(prog, cells, next, fails, bad)
    }

    // ------------------------------------------------------------- copying

    method CopyInternal(b: Addr, ghost rank: map<Addr, nat>) returns (r: Addr)
      requires Acyclic(prog, rank)
      modifies this
      ensures (r, State()) == Copy(old(State()), b, rank)
      decreases Height(prog, rank, b), 1, 0
    {
      r := b;
      if b == NULL { return; }
      if b in prog {
        if IsGlobal(prog[b].word) { return; }
        r, next := next, next + 1;
        if r in fails { return NULL; }
        cells := cells[r := Block(HeapWord(prog[b].word, 1), prog[b].fields)];
        if HasCopyDispose(cells[r].word) {
          CopyHelper(r, b, rank);
        }
      } else if b in cells && cells[b].Block? {
        cells := cells[b := Block(Incr(cells[b].word), cells[b].fields)];
      } else {
        bad := true;
      }
    }

    /** _Block_copy: one reference was taken, and exactly the tree of references
        and fresh Blocks behind it; memory is fit for further calls. */
    method BlockCopy(b: Addr, ghost rank: map<Addr, nat>) returns (r: Addr, ghost t: Copied)
      requires Acyclic(prog, rank) && Ready(State(), next) && (b == NULL || b in prog || IsBlock(State(), b))
      modifies this
      ensures CopyAnswers(old(State()), State(), b, r)
      ensures t.a == r && Took(old(State()), State(), Field(7, b), r, t, old(next))
      ensures (r, State()) == Copy(old(State()), b, rank)
    {
      hide Took, CopyAnswers;
      ghost var m := State();
      t := TookField(m, Field(7, b), rank, next);
      r := CopyInternal(b, rank);
      assert AssignField(m, Field(7, b), rank) == Copy(m, b, rank);
      CopyIsRight(m, b, rank, t);
    }

    /** A program that copies a Block and releases the copy. */
    method CopyAndRelease(b: Addr, ghost rank: map<Addr, nat>) returns (ghost copied: Mem)
      requires Acyclic(prog, rank) && Ready(State(), next) && (b == NULL || b in prog || IsBlock(State(), b))
      modifies this
      ensures RoundTripped(old(State()), copied, State())
      ensures exists r :: CopyAnswers(old(State()), copied, b, r)
    {
      hide CopyAnswers, RoundTripped;
      ghost var m := State();
      CopyThenRelease(m, b, rank);
      var r := CopyInternal(b, rank);
      copied := State();
      BlockRelease(r);
    }

    /** The compiler's copy helper for stack Block b and its heap copy n. */
    method CopyHelper(n: Addr, b: Addr, ghost rank: map<Addr, nat>)
      requires Acyclic(prog, rank) && b in prog
      modifies this
      ensures State() == CopyFields(old(State()), b, n, 0, rank)
      decreases Height(prog, rank, b), 0, 0
    {
      var i := 0;
      while i < |prog[b].fields|
        invariant 0 <= i <= |prog[b].fields|
        invariant CopyFields(State(), b, n, i, rank) == CopyFields(old(State()), b, n, 0, rank)
      {
        var p := ObjectAssign(prog[b].fields[i], rank);
        if n in cells && cells[n].Block? && i < |cells[n].fields| {
          var c := cells[n];
          cells := cells[n := Block(c.word, c.fields[i := Field(c.fields[i].flags, p)])];
        } else {
          bad := true;
        }
        i := i + 1;
      }
    }

    method ObjectAssign(f: Field, ghost rank: map<Addr, nat>) returns (p: Addr)
      requires Acyclic(prog, rank)
      modifies this
      ensures (p, State()) == AssignField(old(State()), f, rank)
      ensures Ready(old(State()), old(next)) && FieldReady(old(State()), f, old(next)) ==>
        exists t: Copied :: t.a == p && Took(old(State()), State(), f, p, t, old(next))
      decreases Height(prog, rank, f.target), 2, 0
    {
      hide Ready, FieldReady, Took;
      ghost var m := State();
      p := f.target;
      match OnAssign(f.flags) {
        case Nothing =>
        case CopyBlock => p := CopyInternal(f.target, rank);
        case ShareByref => p := AssignByref(f.target);
        case Retain =>
          if f.target != NULL {
            if f.target in cells && cells[f.target].Object? {
              cells := cells[f.target := Object(cells[f.target].retains + 1)];
            } else {
              bad := true;
            }
          }
      }
      if Ready(m, m.next) && FieldReady(m, f, m.next) {
        ghost var t := TookField(m, f, rank, m.next);
        assert t.a == p && Took(m, State(), f, p, t, m.next);
      }
    }

    /** _Block_byref_assign_copy: the heap copy is written first, then the stack byref is forwarded to it. */
    method AssignByref(src: Addr) returns (p: Addr)
      modifies this
      ensures (p, State()) == ByrefAssignCopy(old(State()), src)
      ensures Ready(old(State()), old(next)) && IsByref(old(State()), src) ==>
        ByrefOk(old(State()), src) && SharesByref(old(State()), State(), src, p)
    {
      ghost var m := State();
      p := src;
      if !(src in cells && cells[src].Byref? && cells[src].forwarding in cells && cells[cells[src].forwarding].Byref?) {
        bad := true;
      } else {
        var s := cells[src];
        var f := cells[s.forwarding];
        if Count(f.word) == 0 {
          p, next := next, next + 1;
          cells := cells[p := Byref(HeapWord(s.word, OrTwo(Count(s.word))), p, s.value)];
          cells := cells[src := Byref(s.word, p, s.value)];
        } else {
          p := s.forwarding;
          if NeedsFree(f.word) {
            cells := cells[p := Byref(Incr(f.word), f.forwarding, f.value)];
          }
        }
      }
      if Ready(m, m.next) && IsByref(m, src) { SharedByref(m, src); }
    }

    // ----------------------------------------------------------- releasing

    method BlockRelease(a: Addr)
      modifies this
      ensures State() == Release(old(State()), a)
      ensures a != NULL && a !in prog && IsBlock(old(State()), a) && Count(old(cells)[a].word) > 0 ==>
        DropsBlock(old(State()), State(), a)
      ensures forall t: Copied ::
        Stands(old(State()), [Field(7, a)], [t]) && Spare(old(State()), Held([t]), FreshOf([t])) ==>
        Dropped(old(State()), State(), Held([t]), FreshOf([t]))
      decreases Alive(State()), 0
    {
      ghost var m := State();
      if a != NULL && a !in prog {
        if !(a in cells && cells[a].Block? && Count(cells[a].word) > 0) {
          bad := true;
        } else {
          var c := cells[a];
          cells := cells[a := Block(Decr(c.word), c.fields)];
          if Count(Decr(c.word)) == 0 {
            assert a in Alive(m) && Alive(State()) == Alive(m) - {a};
            if HasCopyDispose(Decr(c.word)) {
              DisposeHelper(c.fields);
            }
            cells := cells - {a};
          }
          DroppedBlock(m, a);
        }
      }
      forall t: Copied | Stands(m, [Field(7, a)], [t]) && Spare(m, Held([t]), FreshOf([t]))
        ensures Dropped(m, Release(m, a), Held([t]), FreshOf([t]))
      {
        DroppedTree(m, Field(7, a), t);
      }
    }

    /** The compiler's dispose helper. */
    method DisposeHelper(fs: seq<Field>)
      modifies this
      ensures State() == DisposeFields(old(State()), fs)
      decreases Alive(State()), 2
    {
      var i := 0;
      while i < |fs|
        invariant 0 <= i <= |fs|
        invariant Alive(State()) <= Alive(old(State()))
        invariant DisposeFields(State(), fs[i..]) == DisposeFields(old(State()), fs)
      {
        assert fs[i..][0] == fs[i] && fs[i..][1..] == fs[i + 1..];
        ObjectDispose(fs[i]);
        i := i + 1;
      }
    }

    method ObjectDispose(f: Field)
      modifies this
      ensures State() == DisposeField(old(State()), f)
      ensures forall t: Copied :: Stands(old(State()), [f], [t]) && Spare(old(State()), Held([t]), FreshOf([t])) ==>
        Dropped(old(State()), State(), Held([t]), FreshOf([t]))
      decreases Alive(State()), 1
    {
      ghost var m := State();
      match OnDispose(f.flags) {
        case Nothing =>
        case CopyBlock => BlockRelease(f.target);
        case ShareByref => ReleaseByref(f.target);
        case Retain =>
          if f.target != NULL {
            if f.target in cells && cells[f.target].Object? {
              cells := cells[f.target := Object(cells[f.target].retains - 1)];
            } else {
              bad := true;
            }
          }
      }
      forall t: Copied | Stands(m, [f], [t]) && Spare(m, Held([t]), FreshOf([t]))
        ensures Dropped(m, DisposeField(m, f), Held([t]), FreshOf([t]))
      {
        DroppedTree(m, f, t);
      }
    }

    method ReleaseByref(a: Addr)
      modifies this
      ensures State() == ByrefRelease(old(State()), a)
      ensures IsByref(old(State()), a) && ByrefOk(old(State()), a) ==> DropsByref(old(State()), State(), a)
    {
      ghost var m := State();
      if !(a in cells && cells[a].Byref? && cells[a].forwarding in cells && cells[cells[a].forwarding].Byref?) {
        bad := true;
      } else {
        var h := cells[a].forwarding;
        var c := cells[h];
        if NeedsFree(c.word) {
          if Count(c.word) == 0 {
            bad := true;
          } else {
            cells := cells[h := Byref(Decr(c.word), c.forwarding, c.value)];
            if Count(Decr(c.word)) == 0 {
              cells := cells - {h};
            }
          }
        }
      }
      if IsByref(m, a) && ByrefOk(m, a) { DroppedByref(m, a); }
    }
  }
}
