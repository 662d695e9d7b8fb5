/** Address arithmetic of the fake stack: flags and frames of eleven size classes. */
module FakeStackLayout {
  import opened Pow2Math

  const CLASSES: nat := 11
  const MIN_FRAME_LOG: nat := 6
  const FLAGS_OFFSET: nat := 4096
  const FRAME_HEADER: nat := 32
  const MIN_STACK_LOG: nat := 16
  const MAX_STACK_LOG: nat := 28

  datatype Slot = Slot(c: nat, pos: nat)

  /** FakeStack::Create clamps the requested logarithm. */
  function ClampLog(log: nat): (r: nat)
    ensures MIN_STACK_LOG <= r <= MAX_STACK_LOG
    ensures 16 <= log <= 28 ==> r == log
    ensures (log < 16 ==> r == 16) && (log > 28 ==> r == 28)
  {
    if log < MIN_STACK_LOG then MIN_STACK_LOG else if log > MAX_STACK_LOG then MAX_STACK_LOG else log
  }

  predicate ValidLog(log: nat) { MIN_STACK_LOG <= log <= MAX_STACK_LOG }

  function FrameBytes(c: nat): (r: nat)
    ensures r > 0
  {
    Pow2(c + MIN_FRAME_LOG)
  }

  function FrameCount(log: nat, c: nat): nat
    requires ValidLog(log) && c < CLASSES
  {
    Pow2(log - MIN_FRAME_LOG - c)
  }

  predicate ValidSlot(log: nat, s: Slot)
    requires ValidLog(log)
  {
    s.c < CLASSES && s.pos < FrameCount(log, s.c)
  }

  function FlagsSize(log: nat): nat
    requires ValidLog(log)
  {
    Pow2(log + 1 - MIN_FRAME_LOG)
  }

  function RequiredSize(log: nat): nat
    requires ValidLog(log)
  {
    FLAGS_OFFSET + FlagsSize(log) + CLASSES * Pow2(log)
  }

  /** `((all_ones >> t) << t) << (log - 15)` with t = 10 - c and all_ones = 2^10 - 1. */
  function FlagsOffset(log: nat, c: nat): nat
    requires ValidLog(log) && c < CLASSES
  {
    var t := CLASSES - 1 - c;
    (1023 / Pow2(t) * Pow2(t)) * Pow2(log - 15)
  }

  function FlagIndex(log: nat, s: Slot): nat
    requires ValidLog(log) && s.c < CLASSES
  {
    FlagsOffset(log, s.c) + s.pos
  }

  function FramesBegin(base: nat, log: nat): nat
    requires ValidLog(log)
  {
    base + FLAGS_OFFSET + FlagsSize(log)
  }

  function FrameAddr(base: nat, log: nat, s: Slot): nat
    requires ValidLog(log)
  {
    FramesBegin(base, log) + s.c * Pow2(log) + s.pos * FrameBytes(s.c)
  }

  // ------------------------------------------------------------------ flags

  lemma FlagsOffsetIs(log: nat, c: nat)
    requires ValidLog(log) && c < CLASSES
    ensures FlagsOffset(log, c) == Pow2(log - 5) - Pow2(log - 5 - c)
  {
    var t := CLASSES - 1 - c;
    var p := Pow2(log - 15);
    Pow2Add(10 - t, t);
    assert Pow2(10) == 1024;
    assert 1023 == (Pow2(10 - t) - 1) * Pow2(t) + (Pow2(t) - 1) by {
      assert (Pow2(10 - t) - 1) * Pow2(t) == 1024 - Pow2(t);
    }
    DivMod(Pow2(10 - t) - 1, Pow2(t) - 1, Pow2(t));
    assert 1023 / Pow2(t) * Pow2(t) == 1024 - Pow2(t);
    Pow2Add(10, log - 15);
    Pow2Add(t, log - 15);
    assert (1024 - Pow2(t)) * p == 1024 * p - Pow2(t) * p;
  }

  /** The flags of class c end where those of class c + 1 begin, and the last end inside the flag area. */
  lemma FlagsTile(log: nat, c: nat)
    requires ValidLog(log) && c < CLASSES
    ensures c == 0 ==> FlagsOffset(log, c) == 0
    ensures c + 1 < CLASSES ==> FlagsOffset(log, c) + FrameCount(log, c) == FlagsOffset(log, c + 1)
    ensures FlagsOffset(log, c) + FrameCount(log, c) < FlagsSize(log)
  {
    FlagsOffsetIs(log, c);
    if c + 1 < CLASSES { FlagsOffsetIs(log, c + 1); }
    assert Pow2(log - 5 - c) == 2 * Pow2(log - 6 - c);
  }

  lemma {:induction false} FlagsAscend(log: nat, c: nat, d: nat)
    requires ValidLog(log) && c < d < CLASSES
    ensures FlagsOffset(log, c) + FrameCount(log, c) <= FlagsOffset(log, d)
    decreases d
  {
    FlagsTile(log, d - 1);
    FlagsTile(log, c);
    if c < d - 1 { FlagsAscend(log, c, d - 1); }
  }

  /** No two frames share a flag, and every flag lies inside the flag area. */
  lemma FlagsApart(log: nat, s: Slot, t: Slot)
    requires ValidLog(log) && ValidSlot(log, s) && ValidSlot(log, t)
    ensures FlagIndex(log, s) < FlagsSize(log)
    ensures FlagIndex(log, s) == FlagIndex(log, t) <==> s == t
  {
    FlagsTile(log, s.c);
    if s.c < t.c {
      FlagsAscend(log, s.c, t.c);
    } else if t.c < s.c {
      FlagsAscend(log, t.c, s.c);
    }
  }

  // ----------------------------------------------------------------- frames

  /** AddrIsInFakeStack: the frame, where its user part begins, where it ends. */
  datatype Located = NotOurs | Located(slot: Slot, frame: nat, beg: nat, end: nat)

  function Locate(base: nat, log: nat, p: nat): Located
    requires ValidLog(log)
  {
    hide Pow2;
    var beg := FramesBegin(base, log);
    if p < beg || p >= base + RequiredSize(log) then NotOurs
    else
      var c := (p - beg) / Pow2(log);
      var cbase := beg + c * Pow2(log);
      if cbase > p then NotOurs
      else
        var pos := (p - cbase) / FrameBytes(c);
        var res := cbase + pos * FrameBytes(c);
        Located(Slot(c, pos), res, res + FRAME_HEADER, res + FrameBytes(c))
  }

  lemma ClassIsFull(log: nat, c: nat)
    requires ValidLog(log) && c < CLASSES
    ensures FrameCount(log, c) * FrameBytes(c) == Pow2(log)
  {
    Pow2Add(log - MIN_FRAME_LOG - c, c + MIN_FRAME_LOG);
  }

  /** The two quotients of Locate, for an address with known class and position. */
  lemma Quotients(room: nat, count: nat, frame: nat, c: nat, pos: nat, off: nat)
    requires c < CLASSES && pos < count && off < frame && count * frame == room
    ensures pos * frame + off < room
    ensures c * room + (pos * frame + off) < CLASSES * room
    ensures (c * room + (pos * frame + off)) / room == c && (pos * frame + off) / frame == pos
  {
    MulBelow(pos, count, off, frame);
    MulBelow(c, CLASSES, pos * frame + off, room);
    DivMod(c, pos * frame + off, room);
    DivMod(pos, off, frame);
  }

  lemma LocateBy(base: nat, log: nat, p: nat, s: Slot, inner: nat)
    requires ValidLog(log) && p < base + RequiredSize(log)
    requires p == FramesBegin(base, log) + s.c * Pow2(log) + inner
    requires (s.c * Pow2(log) + inner) / Pow2(log) == s.c && inner / FrameBytes(s.c) == s.pos
    ensures var a := FrameAddr(base, log, s);
      Locate(base, log, p) == Located(s, a, a + FRAME_HEADER, a + FrameBytes(s.c))
  {
    hide Pow2;
    assert p - FramesBegin(base, log) == s.c * Pow2(log) + inner;
  }

  /** Every address of every frame is mapped back to that frame's bounds. */
  lemma LocateFinds(base: nat, log: nat, s: Slot, off: nat)
    requires ValidLog(log) && ValidSlot(log, s) && off < FrameBytes(s.c)
    ensures var a := FrameAddr(base, log, s);
      Locate(base, log, a + off) == Located(s, a, a + 32, a + FrameBytes(s.c))
  {
    hide Pow2;
    var room, frame, beg := Pow2(log), FrameBytes(s.c), FramesBegin(base, log);
    ClassIsFull(log, s.c);
    Quotients(room, FrameCount(log, s.c), frame, s.c, s.pos, off);
    LocateBy(base, log, beg + s.c * room + s.pos * frame + off, s, s.pos * frame + off);
  }

  /** Every address of the frame area lies in the frame reported for it, so
      the frames tile the area: the CHECKs of AddrIsInFakeStack hold. */
  lemma LocateIsSound(base: nat, log: nat, p: nat)
    requires ValidLog(log) && FramesBegin(base, log) <= p < base + RequiredSize(log)
    ensures var r := Locate(base, log, p);
      && r.Located? && ValidSlot(log, r.slot) && r.frame == FrameAddr(base, log, r.slot)
      && r.frame <= p < r.end
  {
    hide Pow2;
    var room, x := Pow2(log), p - FramesBegin(base, log);
    DivBelow(x, CLASSES, room);
    var c := x / room;
    ClassIsFull(log, c);
    DivBelow(x % room, FrameCount(log, c), FrameBytes(c));
  }

  /** The figures that asan_fake_stack_test.cc expects: how much memory a fake
      stack takes, how many flags it has, and where some frames are. */
  lemma ExpectedFigures(base: nat)
    ensures RequiredSize(16) == 727040 && RequiredSize(17) == 1449984
    ensures RequiredSize(18) == 2895872 && RequiredSize(19) == 5787648
    ensures FlagsSize(20) == 0x8000 && FramesBegin(base, 20) == base + 0x8000 + 4096
    ensures FrameAddr(base, 20, Slot(0, 7)) == FramesBegin(base, 20) + 64 * 7
    ensures FrameAddr(base, 20, Slot(1, 3)) == FramesBegin(base, 20) + 0x10_0000 + 128 * 3
    ensures FrameAddr(base, 20, Slot(2, 5)) == FramesBegin(base, 20) + 2 * 0x10_0000 + 256 * 5
  {
    assert Pow2(6) == 64 && Pow2(7) == 128 && Pow2(8) == 256;
    assert Pow2(11) == 0x800 && Pow2(12) == 0x1000 && Pow2(13) == 0x2000 && Pow2(14) == 0x4000 && Pow2(15) == 0x8000;
    assert Pow2(16) == 0x1_0000 && Pow2(17) == 0x2_0000 && Pow2(18) == 0x4_0000 && Pow2(19) == 0x8_0000;
    assert Pow2(20) == 0x10_0000;
  }

  /** Frames of all size classes are disjoint. */
  lemma FramesApart(base: nat, log: nat, s: Slot, t: Slot, p: nat)
    requires ValidLog(log) && ValidSlot(log, s) && ValidSlot(log, t)
    requires FrameAddr(base, log, s) <= p < FrameAddr(base, log, s) + FrameBytes(s.c)
    requires FrameAddr(base, log, t) <= p < FrameAddr(base, log, t) + FrameBytes(t.c)
    ensures s == t
  {
    LocateFinds(base, log, s, p - FrameAddr(base, log, s));
    LocateFinds(base, log, t, p - FrameAddr(base, log, t));
  }
}
