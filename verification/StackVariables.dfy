/** Which variables of a stack frame a bad access is attributed to. Offsets
    are relative to the frame; arithmetic is that of a 64-bit word. */
module StackVariables {
  import opened Pow2Math

  const LIMIT: nat := 0x4000_0000_0000_0000

  datatype Var = Var(beg: nat, size: nat)

  datatype Position = Unmarked | Inside | PartiallyOverflows | Overflows | PartiallyUnderflows | Underflows

  function End(v: Var): nat { v.beg + v.size }

  /** PrintAccessAndVarIntersection: the wording for one variable. */
  function PositionOf(v: Var, addr: nat, size: nat, prevEnd: nat, nextBeg: nat): Position {
    var varEnd := Wrap(End(v));
    var addrEnd := Wrap(addr + size);
    if addr >= v.beg then
      if addrEnd <= varEnd then Inside
      else if addr < varEnd then PartiallyOverflows
      else if addrEnd <= nextBeg && Wrap(nextBeg - addrEnd) >= Wrap(addr - varEnd) then Overflows
      else Unmarked
    else
      if addrEnd > v.beg then PartiallyUnderflows
      else if addr >= prevEnd && Wrap(addr - prevEnd) >= Wrap(v.beg - addrEnd) then Underflows
      else Unmarked
  }

  /** The loop of StackAddressDescription::Print supplies the neighbours:
      offset 0 before the first variable, the largest word after the last. */
  function PositionAt(vars: seq<Var>, i: nat, addr: nat, size: nat): Position
    requires i < |vars|
  {
    PositionOf(vars[i], addr, size, if i == 0 then 0 else Wrap(End(vars[i - 1])),
               if i + 1 < |vars| then vars[i + 1].beg else WORD - 1)
  }

  method Print(vars: seq<Var>, addr: nat, size: nat) returns (lines: seq<Position>)
    ensures |lines| == |vars|
    ensures forall i :: 0 <= i < |vars| ==> lines[i] == PositionAt(vars, i, addr, size)
  {
    lines := [];
    for i := 0 to |vars|
      invariant |lines| == i
      invariant forall k :: 0 <= k < i ==> lines[k] == PositionAt(vars, k, addr, size)
    {
      var prevEnd := if i > 0 then Wrap(vars[i - 1].beg + vars[i - 1].size) else 0;
      var nextBeg := if i + 1 < |vars| then vars[i + 1].beg else WORD - 1;
      lines := lines + [PositionOf(vars[i], addr, size, prevEnd, nextBeg)];
    }
  }

  // -------------------------------------------- what the marks should mean

  /** Non-empty, disjoint, in ascending order, at realistic offsets. */
  ghost predicate WellLaidOut(vars: seq<Var>) {
    && (forall i :: 0 <= i < |vars| ==> vars[i].size > 0 && End(vars[i]) < LIMIT)
    && (forall i, j :: 0 <= i < j < |vars| ==> End(vars[i]) <= vars[j].beg)
  }

  predicate Overlaps(v: Var, addr: nat, size: nat) {
    addr < End(v) && v.beg < addr + size
  }

  /** Bytes between the access and the variable; 0 if they touch or overlap. */
  function Gap(v: Var, addr: nat, size: nat): nat {
    if End(v) <= addr then addr - End(v)
    else if addr + size <= v.beg then v.beg - (addr + size)
    else 0
  }

  ghost predicate Misses(vars: seq<Var>, addr: nat, size: nat) {
    forall i :: 0 <= i < |vars| ==> !Overlaps(vars[i], addr, size)
  }

  ghost predicate Nearest(vars: seq<Var>, i: nat, addr: nat, size: nat)
    requires i < |vars|
  {
    forall j :: 0 <= j < |vars| ==> Gap(vars[i], addr, size) <= Gap(vars[j], addr, size)
  }

  /** The case the code treats differently: an access wholly before the first
      variable, closer to the frame's start than to that variable. */
  predicate TooEarly(vars: seq<Var>, addr: nat, size: nat) {
    vars != [] && addr + size <= vars[0].beg && addr < vars[0].beg - (addr + size)
  }

  /** The marked variables are exactly the overlapped ones or, when none is
      overlapped, exactly the nearest ones; but a too-early access marks none. */
  lemma MarksAreNearest(vars: seq<Var>, i: nat, addr: nat, size: nat)
    requires WellLaidOut(vars) && i < |vars| && 0 < size && addr + size < LIMIT
    ensures PositionAt(vars, i, addr, size) != Unmarked <==>
            || Overlaps(vars[i], addr, size)
            || (Misses(vars, addr, size) && Nearest(vars, i, addr, size) && !TooEarly(vars, addr, size))
  {
    hide Wrap;
    if Overlaps(vars[i], addr, size) {
      WrapSmall(End(vars[i]));
      WrapSmall(addr + size);
    } else if !Misses(vars, addr, size) {
      var j :| 0 <= j < |vars| && Overlaps(vars[j], addr, size);
      if End(vars[i]) <= addr { PositionAfter(vars, i, addr, size); } else { PositionBefore(vars, i, addr, size); }
    } else if End(vars[i]) <= addr {
      AfterIt(vars, i, addr, size);
    } else {
      BeforeIt(vars, i, addr, size);
    }
  }

  /** The wording of a mark says where the access lies: within the variable, from
      inside past its end, from before its start into it, past its end, or before it. */
  lemma WordingIsRight(vars: seq<Var>, i: nat, addr: nat, size: nat)
    requires WellLaidOut(vars) && i < |vars| && 0 < size && addr + size < LIMIT
    ensures var v, w := vars[i], PositionAt(vars, i, addr, size);
      && (w == Inside <==> v.beg <= addr && addr + size <= v.beg + v.size)
      && (w == PartiallyOverflows <==> v.beg <= addr < v.beg + v.size < addr + size)
      && (w == PartiallyUnderflows <==> addr < v.beg < addr + size)
      && (w == Overflows ==> v.beg + v.size <= addr)
      && (w == Underflows ==> addr + size <= v.beg)
  {
    hide Wrap;
    WrapSmall(End(vars[i]));
    WrapSmall(addr + size);
  }

  lemma WrapSmall(x: nat)
    ensures x < WORD ==> Wrap(x) == x
  {
  }

  /** No subtraction wraps on the path taken for an access past variable i. */
  lemma PositionAfter(vars: seq<Var>, i: nat, addr: nat, size: nat)
    requires WellLaidOut(vars) && i < |vars| && 0 < size && addr + size < LIMIT && End(vars[i]) <= addr
    ensures PositionAt(vars, i, addr, size) != Unmarked <==>
            i + 1 == |vars| || (addr + size <= vars[i + 1].beg &&
                                vars[i + 1].beg - (addr + size) >= addr - End(vars[i]))
  {
    hide Wrap;
    var next := if i + 1 < |vars| then vars[i + 1].beg else WORD - 1;
    WrapSmall(End(vars[i]));
    WrapSmall(addr + size);
    WrapSmall(addr - End(vars[i]));
    if addr + size <= next { WrapSmall(next - (addr + size)); }
  }

  lemma PositionBefore(vars: seq<Var>, i: nat, addr: nat, size: nat)
    requires WellLaidOut(vars) && i < |vars| && 0 < size && addr + size < LIMIT && addr + size <= vars[i].beg
    ensures PositionAt(vars, i, addr, size) != Unmarked <==>
            var prevEnd := if i == 0 then 0 else End(vars[i - 1]);
            addr >= prevEnd && addr - prevEnd >= vars[i].beg - (addr + size)
  {
    hide Wrap;
    var prevEnd := if i == 0 then 0 else End(vars[i - 1]);
    WrapSmall(prevEnd);
    WrapSmall(addr + size);
    WrapSmall(vars[i].beg - (addr + size));
    if addr >= prevEnd { WrapSmall(addr - prevEnd); }
  }

  /** The access lies past variable i: only the next variable can be nearer. */
  lemma AfterIt(vars: seq<Var>, i: nat, addr: nat, size: nat)
    requires WellLaidOut(vars) && i < |vars| && 0 < size && addr + size < LIMIT
    requires Misses(vars, addr, size) && End(vars[i]) <= addr
    ensures PositionAt(vars, i, addr, size) != Unmarked <==> Nearest(vars, i, addr, size)
    ensures !TooEarly(vars, addr, size)
  {
    hide PositionAt;
    PositionAfter(vars, i, addr, size);
    forall j | 0 <= j < |vars| ensures j < i ==> Gap(vars[j], addr, size) >= Gap(vars[i], addr, size) { }
    if i + 1 < |vars| {
      assert !Overlaps(vars[i + 1], addr, size);
      if addr + size <= vars[i + 1].beg {
        forall j | i < j < |vars| ensures Gap(vars[j], addr, size) >= Gap(vars[i + 1], addr, size) { }
      }
    }
  }

  /** The access lies before variable i: only the previous variable can be nearer. */
  lemma BeforeIt(vars: seq<Var>, i: nat, addr: nat, size: nat)
    requires WellLaidOut(vars) && i < |vars| && 0 < size && addr + size < LIMIT
    requires Misses(vars, addr, size) && addr + size <= vars[i].beg
    ensures PositionAt(vars, i, addr, size) != Unmarked <==>
            Nearest(vars, i, addr, size) && !TooEarly(vars, addr, size)
  {
    hide PositionAt;
    PositionBefore(vars, i, addr, size);
    forall j | i < j < |vars| ensures Gap(vars[j], addr, size) >= Gap(vars[i], addr, size) { }
    if i > 0 {
      assert !Overlaps(vars[i - 1], addr, size);
      if End(vars[i - 1]) <= addr {
        forall j | 0 <= j < i ensures Gap(vars[j], addr, size) >= Gap(vars[i - 1], addr, size) { }
      }
    }
  }

  /** At most two variables are marked when none is overlapped; then they are
      neighbours at equal distance, one on each side of the access. */
  lemma AtMostTwoNearest(vars: seq<Var>, i: nat, j: nat, addr: nat, size: nat)
    requires WellLaidOut(vars) && i < j < |vars| && 0 < size && addr + size < LIMIT && Misses(vars, addr, size)
    requires PositionAt(vars, i, addr, size) != Unmarked && PositionAt(vars, j, addr, size) != Unmarked
    ensures j == i + 1 && End(vars[i]) <= addr && addr + size <= vars[j].beg
    ensures Gap(vars[i], addr, size) == Gap(vars[j], addr, size)
  {
    hide PositionAt;
    MarksAreNearest(vars, i, addr, size);
    MarksAreNearest(vars, j, addr, size);
    assert !Overlaps(vars[i], addr, size) && !Overlaps(vars[j], addr, size) && !Overlaps(vars[i + 1], addr, size);
    assert Gap(vars[i], addr, size) <= Gap(vars[i + 1], addr, size);
  }

  /** The exception is real: a frame whose only variable is the nearest one, and it is not marked. */
  lemma TooEarlyExample()
    ensures var vars := [Var(32, 4)];
      WellLaidOut(vars) && Nearest(vars, 0, 8, 1) && PositionAt(vars, 0, 8, 1) == Unmarked && TooEarly(vars, 8, 1)
  {
  }
}
