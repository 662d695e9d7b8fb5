/** Shadow of fake frames: SetShadow, its eight-bytes-at-a-time fast path, and
    the frame bounds it respects. */
module FakeStackShadow {
  import opened Pow2Math
  import opened FakeStackLayout
  import opened Shadow

  const MAGIC1: nat := AFTER_RETURN
  const MAGIC2: nat := MAGIC1 * 0x100 + MAGIC1
  const MAGIC4: nat := MAGIC2 * 0x1_0000 + MAGIC2
  const MAGIC8: nat := MAGIC4 * 0x1_0000_0000 + MAGIC4

  /** Byte j of a word. */
  function ByteOf(w: nat, j: nat): nat {
    if j == 0 then w % 256 else ByteOf(w / 256, j - 1)
  }

  /** n copies of byte v. */
  function Repeat(v: nat, n: nat): nat {
    if n == 0 then 0 else Repeat(v, n - 1) * 256 + v
  }

  lemma {:induction false} RepeatBytes(v: nat, n: nat, j: nat)
    requires v < 256 && j < n
    ensures ByteOf(Repeat(v, n), j) == v
    decreases n
  {
    if j > 0 { RepeatBytes(v, n - 1, j - 1); }
  }

  lemma MagicIsRepeat()
    ensures MAGIC8 == Repeat(AFTER_RETURN, 8)
  {
    assert Repeat(AFTER_RETURN, 2) == MAGIC2;
    assert Repeat(AFTER_RETURN, 4) == MAGIC4;
    assert Repeat(AFTER_RETURN, 6) == MAGIC4 * 0x1_0000 + MAGIC2;
  }

  /** kMagic8 and 0 read the same whichever end the machine stores first. */
  lemma MagicBytes(w: nat, j: nat)
    requires (w == MAGIC8 || w == 0) && j < 8
    ensures ByteOf(w, j) == w % 256 && (w == MAGIC8 ==> w % 256 == AFTER_RETURN)
  {
    if w == 0 {
      RepeatBytes(0, 8, j);
      assert Repeat(0, 8) == 0 by { assert Repeat(0, 4) == 0; }
    } else {
      MagicIsRepeat();
      RepeatBytes(AFTER_RETURN, 8, j);
      RepeatBytes(AFTER_RETURN, 8, 0);
    }
  }

  lemma FrameWords(c: nat)
    ensures FrameBytes(c) == 64 * Pow2(c)
  {
    Pow2Add(6, c);
    assert Pow2(6) == 64;
  }

  /** `shadow[i] = magic` through a u64 pointer. */
  method StoreWord(sh: array<nat>, at: nat, w: nat)
    requires at + 8 <= sh.Length && (w == MAGIC8 || w == 0)
    modifies sh
    ensures sh[..] == Fill(old(sh[..]), at, 8, w % 256)
  {
    for j := 0 to 8
      invariant forall i :: 0 <= i < sh.Length ==> sh[i] == if at <= i < at + j then w % 256 else old(sh[i])
    {
      MagicBytes(w, j);
      sh[at + j] := ByteOf(w, j);
    }
  }

  /** Byte-wise: for the small classes the whole frame is set, whether or not
      poisoning is on; for the large ones `size` bytes, as PoisonShadow does. */
  function FrameShadow(sh: seq<nat>, canPoison: bool, p: nat, size: nat, c: nat, v: nat): (r: seq<nat>)
    ensures |r| == |sh|
  {
    if c <= 6 then Poison(sh, true, p, FrameBytes(c), v) else Poison(sh, canPoison, p, size, v)
  }

  /** SetShadow. For the small classes the whole frame is set, whether or not
      poisoning is on; for the large ones it is PoisonShadow of `size` bytes. */
  method SetShadow(sh: array<nat>, canPoison: bool, p: nat, size: nat, c: nat, magic: nat)
    requires magic == MAGIC8 || magic == 0
    requires p % GRANULE == 0 && c < CLASSES && (c > 6 ==> size % GRANULE == 0 && size <= FrameBytes(c))
    requires (p + FrameBytes(c)) / GRANULE <= sh.Length
    modifies sh
    ensures sh[..] == FrameShadow(old(sh[..]), canPoison, p, size, c, magic % 256)
  {
    FrameWords(c);
    ghost var was := sh[..];
    if c <= 6 {
      var g, n := p / GRANULE, Pow2(c);
      for i := 0 to n
        invariant forall k :: 0 <= k < sh.Length ==> sh[k] == if g <= k < g + 8 * i then magic % 256 else old(sh[k])
      {
        StoreWord(sh, g + 8 * i, magic);
      }
      assert (p + FrameBytes(c)) / GRANULE == g + 8 * n;
      assert sh[..] == Poison(was, true, p, FrameBytes(c), magic % 256);
    } else {
      PoisonShadow(sh, canPoison, p, size, magic % 256);
    }
  }

  lemma EightDivides(n: nat)
    requires n >= 3
    ensures Pow2(n) % GRANULE == 0
  {
    Pow2Add(3, n - 3);
    assert Pow2(3) == 8;
  }

  lemma MultipleOfEight(q: nat, d: nat)
    requires d % GRANULE == 0
    ensures (q * d) % GRANULE == 0
  {
    assert d == d / 8 * 8;
    assert q * d == (q * (d / 8)) * 8;
    DivMod(q * (d / 8), 0, 8);
  }

  lemma SumAligned(a: nat, b: nat, c: nat, d: nat)
    requires a % GRANULE == 0 && b % GRANULE == 0 && c % GRANULE == 0 && d % GRANULE == 0
    ensures (a + b + c + d) % GRANULE == 0
  {
    AddMultiple(a, b, GRANULE);
    AddMultiple(a + b, c, GRANULE);
    AddMultiple(a + b + c, d, GRANULE);
  }

  lemma FrameIsAligned(base: nat, log: nat, s: Slot)
    requires ValidLog(log) && base % GRANULE == 0
    ensures FrameAddr(base, log, s) % GRANULE == 0 && FrameBytes(s.c) % GRANULE == 0
  {
    hide Pow2;
    EightDivides(log + 1 - MIN_FRAME_LOG);
    EightDivides(log);
    EightDivides(s.c + MIN_FRAME_LOG);
    MultipleOfEight(s.c, Pow2(log));
    MultipleOfEight(s.pos, FrameBytes(s.c));
    SumAligned(base + FLAGS_OFFSET, FlagsSize(log), s.c * Pow2(log), s.pos * FrameBytes(s.c));
  }

  /** A granule-aligned range [a, a + n) against a byte p. */
  lemma PoisonRange(sh: seq<nat>, a: nat, n: nat, v: nat, p: nat)
    requires a % GRANULE == 0 && n % GRANULE == 0 && (a + n) / GRANULE <= |sh| && p / GRANULE < |sh|
    ensures |Poison(sh, true, a, n, v)| == |sh|
    ensures Poison(sh, true, a, n, v)[p / GRANULE] == if a <= p < a + n then v else sh[p / GRANULE]
  {
  }

  /** Setting the shadow of the first n bytes of one frame makes each of them
      read v and leaves the shadow of every other byte of every frame alone. */
  lemma ShadowStaysInFrame(base: nat, log: nat, s: Slot, n: nat, sh: seq<nat>, v: nat, t: Slot, p: nat)
    requires ValidLog(log) && ValidSlot(log, s) && ValidSlot(log, t) && base % GRANULE == 0
    requires base + RequiredSize(log) <= |sh| * GRANULE && n <= FrameBytes(s.c) && n % GRANULE == 0
    requires FrameAddr(base, log, t) <= p < FrameAddr(base, log, t) + FrameBytes(t.c)
    ensures p / GRANULE < |sh| && |Poison(sh, true, FrameAddr(base, log, s), n, v)| == |sh|
    ensures Poison(sh, true, FrameAddr(base, log, s), n, v)[p / GRANULE]
            == if s == t && p < FrameAddr(base, log, s) + n then v else sh[p / GRANULE]
  {
    hide Pow2, FrameAddr, FrameBytes, RequiredSize, Poison;
    var a := FrameAddr(base, log, s);
    FrameIsAligned(base, log, s);
    FrameInside(base, log, s);
    FrameInside(base, log, t);
    DivMono(a + n, |sh| * GRANULE, GRANULE);
    DivMod(|sh|, 0, GRANULE);
    DivBelow(p, |sh|, GRANULE);
    PoisonRange(sh, a, n, v, p);
    if a <= p < a + n { FramesApart(base, log, s, t, p); }
  }

  lemma WholeFrame(c: nat)
    ensures FrameBytes(c) % GRANULE == 0
  {
    EightDivides(c + MIN_FRAME_LOG);
  }

  lemma FrameInside(base: nat, log: nat, s: Slot)
    requires ValidLog(log) && ValidSlot(log, s)
    ensures FrameAddr(base, log, s) + FrameBytes(s.c) <= base + RequiredSize(log)
  {
    LocateFinds(base, log, s, FrameBytes(s.c) - 1);
  }
}
