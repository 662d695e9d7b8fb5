/** Where Allocate puts the header, the user memory and the redzones of a
    chunk inside a raw block, and what the chunk header remembers. */
module ChunkLayout {
  import opened Pow2Math

  const HEADER: nat := 16            // sizeof(ChunkHeader)
  const HEADER2: nat := 4            // sizeof(ChunkBase) - sizeof(ChunkHeader)
  const MIN_ALIGN: nat := 8          // SHADOW_GRANULARITY
  const MAX_MALLOC: nat := 0x100_0000_0000
  const MAX_CLASS_SIZE: nat := 0x2_0000
  const ALLOC_BEG_MAGIC: nat := 0xCC6E96B9

  ghost predicate PowerOfTwo(a: nat) { exists k: nat :: a == Pow2(k) }

  predicate LegalRedzone(r: nat) { r in {16, 32, 64, 128, 256, 512, 1024, 2048} }

  /** The options CheckOptions admits. */
  predicate LegalOptions(minRz: nat, maxRz: nat) {
    LegalRedzone(minRz) && LegalRedzone(maxRz) && minRz <= maxRz
  }

  /** CheckOptions asks for a power of two between 16 and 2048. */
  lemma LegalIsChecked(r: nat)
    ensures LegalRedzone(r) <==> 16 <= r <= 2048 && PowerOfTwo(r)
  {
    assert Pow2(1) == 2 && Pow2(2) == 4 && Pow2(3) == 8;
    assert Pow2(4) == 16 && Pow2(5) == 32 && Pow2(6) == 64 && Pow2(7) == 128;
    assert Pow2(8) == 256 && Pow2(9) == 512 && Pow2(10) == 1024 && Pow2(11) == 2048;
    if 16 <= r <= 2048 && PowerOfTwo(r) {
      var k :| r == Pow2(k);
      if k > 11 { Pow2Mono(12, k); }
    }
  }

  function RZLog2Size(log: nat): (r: nat)
    requires log < 8
    ensures r >= HEADER
  {
    16 * Pow2(log)
  }

  function RZSize2Log(r: nat): (log: nat)
    requires LegalRedzone(r)
    ensures log < 8 && RZLog2Size(log) == r
  {
    if r == 16 then 0 else if r == 32 then 1 else if r == 64 then 2 else if r == 128 then 3
    else if r == 256 then 4 else if r == 512 then 5 else if r == 1024 then 6 else 7
  }

  function Min(a: nat, b: nat): nat { if a < b then a else b }

  function Max(a: nat, b: nat): nat { if a < b then b else a }

  function ComputeRZLog(size: nat, minRz: nat, maxRz: nat): (log: nat)
    requires LegalOptions(minRz, maxRz)
    ensures log < 8 && minRz <= RZLog2Size(log) <= maxRz
  {
    var base :=
      if size <= 64 - 16 then 0
      else if size <= 128 - 32 then 1
      else if size <= 512 - 64 then 2
      else if size <= 4096 - 128 then 3
      else if size <= 0x4000 - 256 then 4
      else if size <= 0x8000 - 512 then 5
      else if size <= 0x1_0000 - 1024 then 6 else 7;
    RedzoneLogs(base, RZSize2Log(minRz), RZSize2Log(maxRz));
    Min(Max(base, RZSize2Log(minRz)), RZSize2Log(maxRz))
  }

  lemma RedzoneLogs(base: nat, lo: nat, hi: nat)
    requires base < 8 && lo < 8 && hi < 8 && RZLog2Size(lo) <= RZLog2Size(hi)
    ensures RZLog2Size(lo) <= RZLog2Size(Min(Max(base, lo), hi)) <= RZLog2Size(hi)
  {
    if hi < lo { Pow2Mono(hi, lo); }
    if base < hi { Pow2Mono(base, hi); }
    if lo < base { Pow2Mono(lo, base); }
  }

  /** Up to what size, redzone included, a redzone log is meant for. */
  function RedzoneLimit(log: nat): nat
    requires log < 7
  {
    [64, 128, 512, 4096, 0x4000, 0x8000, 0x1_0000][log]
  }

  /** Under the default options the redzone is the smallest whose limit the
      chunk stays within, or the largest. */
  lemma RedzoneIsLeast(size: nat)
    ensures var log := ComputeRZLog(size, 16, 2048);
      && (log < 7 ==> size + RZLog2Size(log) <= RedzoneLimit(log))
      && forall l :: 0 <= l < log ==> RedzoneLimit(l) < size + RZLog2Size(l)
  {
    assert Pow2(1) == 2 && Pow2(2) == 4 && Pow2(3) == 8 && Pow2(4) == 16 && Pow2(5) == 32 && Pow2(6) == 64;
    var log := ComputeRZLog(size, 16, 2048);
    forall l | 0 <= l < log ensures RedzoneLimit(l) < size + RZLog2Size(l) {
      assert l in {0, 1, 2, 3, 4, 5, 6};
    }
  }

  /** Larger chunks never get a smaller redzone, whatever the options. */
  lemma RedzoneGrows(size: nat, larger: nat, minRz: nat, maxRz: nat)
    requires LegalOptions(minRz, maxRz) && size <= larger
    ensures RZLog2Size(ComputeRZLog(size, minRz, maxRz)) <= RZLog2Size(ComputeRZLog(larger, minRz, maxRz))
  {
    Pow2Mono(ComputeRZLog(size, minRz, maxRz), ComputeRZLog(larger, minRz, maxRz));
  }

  /** (x + a - 1) & ~(a - 1) for a power of two a. */
  function RoundUp(x: nat, a: nat): (r: nat)
    requires a > 0
    ensures x <= r < x + a && r % a == 0
  {
    RoundUpBounds(x, a);
    (x + a - 1) / a * a
  }

  lemma RoundUpBounds(x: nat, a: nat)
    requires a > 0
    ensures x <= (x + a - 1) / a * a < x + a && (x + a - 1) / a * a % a == 0
  {
    var q := (x + a - 1) / a;
    assert x + a - 1 == q * a + (x + a - 1) % a;
    DivMod(q, 0, a);
  }

  // ---------------------------------------------------------------- placing

  /** What Allocate decides before it asks for a raw block; `size` is at least 1. */
  datatype Plan = TooBig | Plan(size: nat, align: nat, rzLog: nat, needed: nat, primary: bool)

  function EffectiveAlign(align: nat): (a: nat)
    ensures a >= MIN_ALIGN
  {
    if align < MIN_ALIGN then MIN_ALIGN else align
  }

  function NeededSize(size: nat, align: nat, rz: nat): nat
    requires align >= MIN_ALIGN
  {
    RoundUp(Max(size, HEADER2), align) + rz + if align > MIN_ALIGN then align else 0
  }

  /** PrimaryAllocator::CanAllocate. */
  predicate CanUsePrimary(needed: nat, align: nat) { needed <= MAX_CLASS_SIZE && align <= MAX_CLASS_SIZE }

  function MakePlan(request: nat, alignment: nat, minRz: nat, maxRz: nat): (p: Plan)
    requires LegalOptions(minRz, maxRz)
    ensures p.Plan? ==> p.rzLog < 8 && p.align >= MIN_ALIGN && minRz <= RZLog2Size(p.rzLog) <= maxRz
  {
    var align := EffectiveAlign(alignment);
    var size := if request == 0 then 1 else request;
    var log := ComputeRZLog(size, minRz, maxRz);
    var needed := NeededSize(size, align, RZLog2Size(log));
    var primary := CanUsePrimary(needed, align);
    var total := if primary then needed else needed + RZLog2Size(log);
    if size > MAX_MALLOC || total > MAX_MALLOC then TooBig else Plan(size, align, log, total, primary)
  }

  function UserBeg(beg: nat, p: Plan): (user: nat)
    requires p.Plan? && p.rzLog < 8 && p.align > 0
    ensures user >= beg + RZLog2Size(p.rzLog)
  {
    RoundUp(beg + RZLog2Size(p.rzLog), p.align)
  }

  lemma PowerAligned(a: nat, k: nat)
    requires PowerOfTwo(a) && k <= 5 && a >= Pow2(k)
    ensures a % Pow2(k) == 0
  {
    var n: nat :| a == Pow2(n);
    if n < k { Pow2Mono(n, k - 1); } else { Pow2Add(n - k, k); DivMod(Pow2(n - k), 0, Pow2(k)); }
  }

  lemma ModDivides(x: nat, a: nat, d: nat)
    requires d > 0 && a > 0 && a % d == 0 && x % a == 0
    ensures x % d == 0
  {
    assert a == a / d * d && x == x / a * a;
    assert x == (x / a * (a / d)) * d by { assert x / a * (a / d * d) == (x / a * (a / d)) * d; }
    DivMod(x / a * (a / d), 0, d);
  }

  lemma RedzoneAligned(log: nat)
    requires log < 8
    ensures RZLog2Size(log) % 16 == 0 && RZLog2Size(log) >= 16
  {
    hide Pow2;
    DivMod(Pow2(log), 0, 16);
  }

  /** A chunk at m with `size` user bytes fits the raw block [b, b + room):
      the header is inside, the magic pair does not overlap it, and user
      memory ends, rounded to whole granules, before the block does. */
  predicate Fits(b: nat, room: nat, m: nat, size: nat) {
    && b % 16 == 0 && room % 16 == 0 && m % 16 == 0 && size >= 1
    && b <= m && (m == b || b + 16 <= m)
    && m + HEADER + RoundUp(size, 8) <= b + room
  }

  lemma RoundUpEight(size: nat, a: nat)
    requires a >= 8 && a % 8 == 0 && size >= 1
    ensures RoundUp(size, 8) <= RoundUp(Max(size, HEADER2), a)
  {
    var r := RoundUp(Max(size, HEADER2), a);
    ModDivides(r, a, 8);
  }

  /** The arithmetic a plan obeys, whatever the block. */
  predicate GoodPlan(p: Plan) {
    && p.Plan? && p.rzLog < 8 && p.size >= 1
    && p.align >= 8 && p.align % 8 == 0 && (p.align > 8 ==> p.align % 16 == 0) && (p.align > 16 ==> p.align % 32 == 0)
    && (p.needed == NeededSize(p.size, p.align, RZLog2Size(p.rzLog)) ||
        p.needed == NeededSize(p.size, p.align, RZLog2Size(p.rzLog)) + RZLog2Size(p.rzLog))
  }

  lemma PlanArithmetic(request: nat, alignment: nat, minRz: nat, maxRz: nat)
    requires LegalOptions(minRz, maxRz) && PowerOfTwo(EffectiveAlign(alignment))
    requires MakePlan(request, alignment, minRz, maxRz).Plan?
    ensures var p := MakePlan(request, alignment, minRz, maxRz);
      GoodPlan(p) && p.size == Max(request, 1) && p.align == EffectiveAlign(alignment)
      && (p.primary ==> p.size < MAX_CLASS_SIZE)
  {
    hide Pow2, RoundUp, RZLog2Size, ComputeRZLog, NeededSize;
    var p := MakePlan(request, alignment, minRz, maxRz);
    PlanAligned(p.align);
    RedzoneAligned(p.rzLog);
    UserRoom(0, RZLog2Size(p.rzLog), p.align, p.size);
  }

  /** Bytes an allocation takes without a right redzone: user memory, at least
      four bytes, rounded up to the alignment; the left redzone; and room to
      align, if more than eight is asked for. */
  function Footprint(size: nat, align: nat, rz: nat): nat
    requires align > 0
  {
    RoundUp(if size < 4 then 4 else size, align) + rz + if align > 8 then align else 0
  }

  /** Small enough for the primary allocator: 128 KiB, and alignment no larger. */
  predicate IsSmall(footprint: nat, align: nat) { footprint <= 0x2_0000 && align <= 0x2_0000 }

  /** The request, or all it takes, right redzone included, exceeds 2^40 bytes. */
  predicate ExceedsLimit(size: nat, align: nat, rz: nat)
    requires align > 0
  {
    var all := Footprint(size, align, rz) + if IsSmall(Footprint(size, align, rz), align) then 0 else rz;
    size > 0x100_0000_0000 || all > 0x100_0000_0000
  }

  /** Exactly which requests are refused, and where the others go: alignments
      below eight count as eight, a request of zero as one byte. */
  lemma PlanIsExact(request: nat, alignment: nat, minRz: nat, maxRz: nat)
    requires LegalOptions(minRz, maxRz)
    ensures var p := MakePlan(request, alignment, minRz, maxRz);
      var size := if request == 0 then 1 else request;
      var align := if alignment < 8 then 8 else alignment;
      var rz := RZLog2Size(ComputeRZLog(size, minRz, maxRz));
      && (p.TooBig? <==> ExceedsLimit(size, align, rz))
      && (p.Plan? ==>
            && p.size == size && p.align == align && RZLog2Size(p.rzLog) == rz
            && (p.primary <==> IsSmall(Footprint(size, align, rz), align))
            && p.needed == Footprint(size, align, rz) + if p.primary then 0 else rz)
  {
    hide RoundUp, RZLog2Size, ComputeRZLog, NeededSize, Footprint;
    var size := if request == 0 then 1 else request;
    var align := if alignment < 8 then 8 else alignment;
    NeededIsFootprint(size, align, RZLog2Size(ComputeRZLog(size, minRz, maxRz)));
  }

  /** So an allocation of a power-of-two alignment is refused or gets a plan that
      obeys the arithmetic, and no primary chunk's size is the sentinel. */
  lemma PlanIsGood(request: nat, alignment: nat, minRz: nat, maxRz: nat)
    requires LegalOptions(minRz, maxRz) && PowerOfTwo(EffectiveAlign(alignment))
    ensures var p := MakePlan(request, alignment, minRz, maxRz);
      var size, align := Max(request, 1), EffectiveAlign(alignment);
      var rz := RZLog2Size(ComputeRZLog(size, minRz, maxRz));
      if ExceedsLimit(size, align, rz) then p.TooBig?
      else
        && GoodPlan(p) && p.size == size && p.align == align
        && (p.primary <==> IsSmall(Footprint(size, align, rz), align)) && (p.primary ==> p.size < MAX_CLASS_SIZE)
  {
    hide Pow2, RoundUp, RZLog2Size, ComputeRZLog, NeededSize, Footprint, MakePlan, GoodPlan, ExceedsLimit, IsSmall;
    PlanIsExact(request, alignment, minRz, maxRz);
    if MakePlan(request, alignment, minRz, maxRz).Plan? { PlanArithmetic(request, alignment, minRz, maxRz); }
  }

  lemma NeededIsFootprint(size: nat, align: nat, rz: nat)
    requires align >= 8
    ensures NeededSize(size, align, rz) == Footprint(size, align, rz)
    ensures Footprint(size, align, rz) <= size + 2 * align + rz + 2 || size == 0
  {
    hide RoundUp;
  }

  /** Every request that leaves room below 2^39 bytes is accepted. */
  lemma AcceptsUpToHalf(request: nat, alignment: nat, minRz: nat, maxRz: nat)
    requires LegalOptions(minRz, maxRz) && request + alignment + 2048 < 0x80_0000_0000
    ensures MakePlan(request, alignment, minRz, maxRz).Plan?
  {
    hide RoundUp, RZLog2Size, ComputeRZLog, Footprint, MakePlan;
    var size := if request == 0 then 1 else request;
    var align := if alignment < 8 then 8 else alignment;
    var rz := RZLog2Size(ComputeRZLog(size, minRz, maxRz));
    PlanIsExact(request, alignment, minRz, maxRz);
    NeededIsFootprint(size, align, rz);
    assert rz <= 2048;
  }

  /** Whatever the options: the redzone of the default options, raised to the
      minimum and cut to the maximum. */
  lemma RedzoneIsClamped(size: nat, minRz: nat, maxRz: nat)
    requires LegalOptions(minRz, maxRz)
    ensures RZLog2Size(ComputeRZLog(size, minRz, maxRz))
         == Min(Max(RZLog2Size(ComputeRZLog(size, 16, 2048)), minRz), maxRz)
  {
    assert Pow2(1) == 2 && Pow2(2) == 4 && Pow2(3) == 8 && Pow2(4) == 16 && Pow2(5) == 32 && Pow2(6) == 64;
  }

  /** The CHECKs on alignment, on the end of user memory and on room for the
      magic pair all hold, for every plan and every 16-aligned block at least
      as large as planned. */
  lemma PlacementFits(p: Plan, b: nat, room: nat)
    requires GoodPlan(p) && b % 16 == 0 && room % 16 == 0 && p.needed <= room
    ensures var user := UserBeg(b, p);
      && user % p.align == 0
      && p.needed % MIN_ALIGN == 0
      && user + p.size <= b + p.needed
      && user >= b + HEADER && Fits(b, room, user - HEADER, p.size)
      && (user != b + RZLog2Size(p.rzLog) ==> user % 32 == 0)
  {
    hide Pow2, RoundUp, RZLog2Size, NeededSize, Fits;
    var rz := RZLog2Size(p.rzLog);
    RedzoneAligned(p.rzLog);
    UserGap(b, rz, p.align);
    UserMoves(b, rz, p.align);
    UserRoom(b, rz, p.align, p.size);
    SumAligned(NeededSize(p.size, p.align, rz), rz);
    FitsBy(b, room, UserBeg(b, p), p.size);
  }

  /** User memory, rounded to granules, ends within the size asked for. */
  lemma UserRoom(b: nat, rz: nat, a: nat, size: nat)
    requires b % 16 == 0 && rz % 16 == 0 && rz >= 16 && a >= 8 && a % 8 == 0 && (a > 8 ==> a % 16 == 0) && size >= 1
    ensures NeededSize(size, a, rz) % 8 == 0
    ensures RoundUp(b + rz, a) + RoundUp(size, 8) <= b + NeededSize(size, a, rz)
    ensures size <= RoundUp(size, 8) && NeededSize(size, a, rz) >= size + 16
  {
    hide RoundUp;
    UserGap(b, rz, a);
    RoundUpEight(size, a);
    NeededAligned(size, a, rz);
  }

  lemma NeededAligned(size: nat, a: nat, rz: nat)
    requires a >= 8 && a % 8 == 0 && rz % 16 == 0
    ensures NeededSize(size, a, rz) % 8 == 0
  {
    hide RoundUp;
    var r := RoundUp(Max(size, HEADER2), a);
    ModDivides(r, a, 8);
    SumAligned(r, rz);
    AddMultiple(r + rz, a, 8);
  }

  lemma SumAligned(x: nat, y: nat)
    requires x % 8 == 0 && y % 16 == 0
    ensures (x + y) % 8 == 0
  {
    ModDivides(y, 16, 8);
    AddMultiple(x, y, 8);
  }

  lemma FitsBy(b: nat, room: nat, user: nat, size: nat)
    requires b % 16 == 0 && room % 16 == 0 && user % 16 == 0 && size >= 1 && b + HEADER <= user
    requires user + RoundUp(size, 8) <= b + room
    ensures Fits(b, room, user - HEADER, size)
  {
    hide RoundUp;
    assert (user - HEADER) % 16 == 0;
  }

  lemma PlanAligned(a: nat)
    requires PowerOfTwo(a) && a >= 8
    ensures a % 8 == 0 && (a > 8 ==> a % 16 == 0) && (a > 16 ==> a % 32 == 0)
  {
    assert Pow2(3) == 8 && Pow2(4) == 16 && Pow2(5) == 32;
    PowerAligned(a, 3);
    if a >= 16 { PowerAligned(a, 4); }
    if a >= 32 { PowerAligned(a, 5); }
  }

  /** User memory moves past the redzone only for alignments above 16. */
  lemma UserMoves(b: nat, rz: nat, a: nat)
    requires b % 16 == 0 && rz % 16 == 0 && a >= 8 && a % 8 == 0 && (a > 8 ==> a % 16 == 0) && (a > 16 ==> a % 32 == 0)
    ensures RoundUp(b + rz, a) != b + rz ==> RoundUp(b + rz, a) % 32 == 0
  {
    if a > 16 {
      ModDivides(RoundUp(b + rz, a), a, 32);
    } else {
      Unmoved(b, rz, a);
    }
  }

  /** Past a redzone memory is 16-aligned already. */
  lemma Unmoved(b: nat, rz: nat, a: nat)
    requires b % 16 == 0 && rz % 16 == 0 && 8 <= a <= 16 && a % 8 == 0
    ensures RoundUp(b + rz, a) == b + rz && (b + rz) % 16 == 0
  {
    AddMultiple(b, rz, 16);
    assert a == 8 || a == 16;
    ModDivides(b + rz, 16, a);
    RoundUpIs(b + rz, a, b + rz);
  }

  /** User memory starts at the end of the redzone, or a multiple of 16 bytes later. */
  lemma UserGap(b: nat, rz: nat, a: nat)
    requires b % 16 == 0 && rz % 16 == 0 && rz >= 16 && a >= 8 && a % 8 == 0 && (a > 8 ==> a % 16 == 0)
    ensures var u := RoundUp(b + rz, a); b + rz <= u && u % 16 == 0 && (a == 8 ==> u == b + rz)
  {
    var u := RoundUp(b + rz, a);
    if a > 8 {
      ModDivides(u, a, 16);
    } else {
      Unmoved(b, rz, a);
    }
  }

  /** The raw allocator is only asked for 8-byte alignment. On a block that is
      merely 8-aligned the magic pair would overlap the header exactly when the
      redzone is the smallest one and user memory moves up by a single granule. */
  lemma MagicPairNeedsAlignment(b: nat, rz: nat, a: nat)
    requires b % 8 == 0 && rz % 16 == 0 && rz >= 16 && a >= 8 && a % 8 == 0
    ensures var m := RoundUp(b + rz, a) - HEADER;
      !(m == b || b + 16 <= m) <==> rz == 16 && (b + 24) % a == 0 && a != 8
  {
    var u := RoundUp(b + rz, a);
    ModDivides(u, a, 8);
    if rz == 16 && (b + 24) % a == 0 && a != 8 {
      RoundUpIs(b + rz, a, b + 24);
    }
  }

  lemma RoundUpIs(x: nat, a: nat, u: nat)
    requires a > 0 && u % a == 0 && x <= u < x + a
    ensures RoundUp(x, a) == u
  {
    var r := RoundUp(x, a);
    assert r == r / a * a && u == u / a * a;
    if r < u { MulStepQuotient(r / a, u / a, a); } else if u < r { MulStepQuotient(u / a, r / a, a); }
  }

  lemma MulStepQuotient(p: nat, q: nat, a: nat)
    requires p * a < q * a
    ensures p * a + a <= q * a
  {
    if p < q {
      MulStep(p, q, a);
    } else if q < p {
      MulStep(q, p, a);
      assert false;
    }
  }

  // ------------------------------------------------------- 64-bit wrap-around

  /** x & ~(a - 1) for a power of two a. */
  function RoundDown(x: nat, a: nat): (r: nat)
    requires a > 0
    ensures r <= x
  {
    assert x == x / a * a + x % a;
    x / a * a
  }

  /** The size computation in machine words. */
  function NeededSize64(size: nat, align: nat, rz: nat): nat
    requires align >= MIN_ALIGN
  {
    var rounded := RoundDown(Wrap(Max(size, HEADER2) + (align - 1)), align);
    Wrap(Wrap(rounded + rz) + if align > MIN_ALIGN then align else 0)
  }

  const HALF_WORD: nat := 0x8000_0000_0000_0000

  lemma Pow2HalfWord()
    ensures Pow2(63) == HALF_WORD && Pow2(62) == HALF_WORD / 2
  {
    Pow2Word();
    assert Pow2(64) == 2 * Pow2(63) && Pow2(63) == 2 * Pow2(62);
  }

  lemma PowersBelowWord(a: nat)
    requires PowerOfTwo(a) && a < WORD
    ensures a == HALF_WORD || a <= HALF_WORD / 2
  {
    Pow2HalfWord();
    var k: nat :| a == Pow2(k);
    Pow2Word();
    if k >= 64 {
      Pow2Mono(64, k);
    } else if k <= 62 {
      Pow2Mono(k, 62);
    }
  }

  /** For a size within the limit, the size computation is exact for every
      power-of-two alignment except 2^63, where it wraps down to the redzone. */
  lemma NeededSizeWraps(size: nat, align: nat, rz: nat)
    requires PowerOfTwo(align) && MIN_ALIGN <= align < WORD && 1 <= size <= MAX_MALLOC && LegalRedzone(rz)
    ensures NeededSize64(size, align, rz) == NeededSize(size, align, rz) <==> align < HALF_WORD
    ensures align == HALF_WORD ==> NeededSize64(size, align, rz) == rz
  {
    hide RoundUp, RoundDown, Pow2, Wrap;
    PowersBelowWord(align);
    var x := Max(size, HEADER2);
    RoundsAlike(x, align);
    WrapBelow(x + (align - 1));
    if align == HALF_WORD {
      HugeRound(x);
      WrapBelow(HALF_WORD + rz);
      WrapOnce(rz);
    } else {
      WrapBelow(RoundUp(x, align) + rz);
      WrapBelow(RoundUp(x, align) + rz + if align > MIN_ALIGN then align else 0);
    }
  }

  lemma WrapBelow(x: nat)
    requires x < WORD
    ensures Wrap(x) == x
  {
  }

  lemma WrapOnce(x: nat)
    requires x < WORD
    ensures Wrap(HALF_WORD + x + HALF_WORD) == x
  {
  }

  lemma HugeRound(x: nat)
    requires 0 < x <= HALF_WORD
    ensures RoundUp(x, HALF_WORD) == HALF_WORD
  {
  }

  lemma RoundsAlike(x: nat, a: nat)
    requires a > 0
    ensures RoundUp(x, a) == RoundDown(x + (a - 1), a)
  {
    assert x + a - 1 == x + (a - 1);
  }

  /** With alignment 2^63 the wrapped size passes the limit test, and the CHECK
      on the end of user memory then fails on every block below 2^63. */
  lemma HugeAlignmentFailsCheck(size: nat, rz: nat, b: nat)
    requires 1 <= size <= MAX_MALLOC && LegalRedzone(rz) && b + 2 * rz < HALF_WORD
    ensures NeededSize64(size, HALF_WORD, rz) + rz <= MAX_MALLOC
    ensures RoundUp(b + rz, HALF_WORD) + size > b + NeededSize64(size, HALF_WORD, rz) + rz
  {
    Pow2HalfWord();
    NeededSizeWraps(size, HALF_WORD, rz);
    HugeRound(b + rz);
  }

  // ----------------------------------------------------------------- header

  const AVAILABLE: nat := 0
  const ALLOCATED: nat := 2
  const QUARANTINE: nat := 3

  datatype Header = Header(state: nat, allocTid: nat, freeTid: nat, fromMemalign: bool, allocType: nat,
                           rzLog: nat, lsanTag: nat, userSize: nat, alignLog: nat, context: nat)

  /** Every field is within its bit-field. */
  predicate FieldsFit(h: Header) {
    && h.state in {AVAILABLE, ALLOCATED, QUARANTINE} && h.allocTid < 0x100_0000 && h.freeTid < 0x100_0000
    && h.allocType < 4 && h.rzLog < 8 && h.lsanTag < 4
    && h.userSize < 0x2000_0000 && h.alignLog < 8 && h.context < 0x1_0000_0000
  }

  /** The first eight bytes: state, then the two thread ids and the small fields. */
  function FirstWord(h: Header): nat {
    h.state + 0x100 * h.allocTid + 0x1_0000_0000 * (h.freeTid + 0x100_0000 * SmallFields(h))
  }

  function SmallFields(h: Header): nat {
    (if h.fromMemalign then 1 else 0) + 2 * h.allocType + 8 * h.rzLog + 64 * h.lsanTag
  }

  function SecondWord(h: Header): nat {
    h.userSize + 0x2000_0000 * h.alignLog + 0x1_0000_0000 * h.context
  }

  function Unpack(w0: nat, w1: nat): Header {
    var hi := w0 / 0x1_0000_0000;
    var small := hi / 0x100_0000;
    Header(w0 % 0x100, w0 % 0x1_0000_0000 / 0x100, hi % 0x100_0000, small % 2 == 1, small / 2 % 4,
           small / 8 % 8, small / 64 % 4, w1 % 0x2000_0000, w1 / 0x2000_0000 % 8, w1 / 0x1_0000_0000)
  }

  /** The packed header gives back every field. */
  lemma UnpackPack(h: Header)
    requires FieldsFit(h)
    ensures Unpack(FirstWord(h), SecondWord(h)) == h
  {
    FirstWordParts(h);
    SmallFieldsParts(h);
    SecondWordParts(h);
    hide FirstWord, SecondWord, SmallFields;
    SplitLow(h.state, h.allocTid, 0x100);
    SplitLow(h.freeTid, SmallFields(h), 0x100_0000);
  }

  lemma SplitLow(lo: nat, hi: nat, d: nat)
    requires lo < d
    ensures (lo + d * hi) % d == lo && (lo + d * hi) / d == hi
  {
    DivMod(hi, lo, d);
  }

  lemma SmallFieldsParts(h: Header)
    requires FieldsFit(h)
    ensures var small := SmallFields(h);
      && (small % 2 == 1) == h.fromMemalign && small / 2 % 4 == h.allocType
      && small / 8 % 8 == h.rzLog && small / 64 % 4 == h.lsanTag
  {
    var small := SmallFields(h);
    assert small / 8 == h.rzLog + 8 * h.lsanTag;
  }

  lemma SecondWordParts(h: Header)
    requires FieldsFit(h)
    ensures var w := SecondWord(h);
      && w % 0x2000_0000 == h.userSize && w / 0x2000_0000 % 8 == h.alignLog && w / 0x1_0000_0000 == h.context
  {
    var w := SecondWord(h);
    assert w / 0x2000_0000 == h.alignLog + 8 * h.context;
  }

  lemma FirstWordParts(h: Header)
    requires FieldsFit(h)
    ensures FirstWord(h) % 0x100 == h.state
    ensures FirstWord(h) % 0x1_0000_0000 == h.state + 0x100 * h.allocTid
    ensures FirstWord(h) / 0x1_0000_0000 == h.freeTid + 0x100_0000 * SmallFields(h)
  {
    var w := FirstWord(h);
    assert w == (h.allocTid + 0x100_0000 * (h.freeTid + 0x100_0000 * SmallFields(h))) * 0x100 + h.state;
  }

  /** No header can be mistaken for the marker of a header placed further up. */
  lemma HeaderIsNotMagic(h: Header)
    requires FieldsFit(h)
    ensures FirstWord(h) != ALLOC_BEG_MAGIC
  {
    FirstWordParts(h);
    assert ALLOC_BEG_MAGIC % 0x100 == 0xB9;
  }

  /** ComputeUserRequestedAlignmentLog, for a power of two. */
  function AlignmentLog(a: nat): (r: nat)
    ensures r < 8
  {
    if a < 8 then 0 else if a < 16 then 1 else if a < 32 then 2 else if a < 64 then 3
    else if a < 128 then 4 else if a < 256 then 5 else if a < 512 then 6 else 7
  }

  /** ComputeUserAlignment. */
  function UserAlignment(log: nat): nat {
    if log == 0 then 0 else Pow2(log + 2)
  }

  /** The header keeps the requested alignment exactly from 8 to 512; less is
      kept as 0, more as 512. */
  lemma AlignmentRoundTrip(a: nat)
    requires PowerOfTwo(a)
    ensures UserAlignment(AlignmentLog(a)) == if a < 8 then 0 else Min(a, 512)
  {
    var k: nat :| a == Pow2(k);
    assert Pow2(3) == 8 && Pow2(4) == 16 && Pow2(5) == 32 && Pow2(6) == 64;
    assert Pow2(7) == 128 && Pow2(8) == 256 && Pow2(9) == 512;
    if k >= 10 { Pow2Mono(9, k); } else if k <= 2 { Pow2Mono(k, 2); }
  }
}
