/** The flags word shared by Block_layout and Block_byref: a 16-bit reference
    count in the low half, the BLOCK_* bits in the high half. */
module BlockFlags {

  const REFCOUNT_MASK: nat := 0xffff

  function Count(f: nat): nat { f % 0x10000 }

  function Upper(f: nat): nat { f / 0x10000 }

  predicate NeedsFree(f: nat) { Upper(f) / 0x100 % 2 == 1 }

  predicate HasCopyDispose(f: nat) { Upper(f) / 0x200 % 2 == 1 }

  predicate IsGlobal(f: nat) { Upper(f) / 0x1000 % 2 == 1 }

  predicate Latched(f: nat) { Count(f) == REFCOUNT_MASK }

  /** The bits by their place in the whole word. */
  lemma FlagBits(f: nat)
    ensures NeedsFree(f) <==> f / 0x100_0000 % 2 == 1
    ensures HasCopyDispose(f) <==> f / 0x200_0000 % 2 == 1
    ensures IsGlobal(f) <==> f / 0x1000_0000 % 2 == 1
    ensures Latched(f) <==> f % 0x1_0000 == 0xffff
  {
    assert f / 0x1_0000 / 0x100 == f / 0x100_0000;
    assert f / 0x1_0000 / 0x200 == f / 0x200_0000;
    assert f / 0x1_0000 / 0x1000 == f / 0x1000_0000;
  }

  /** What a successful or latched latching_incr_int leaves in the word. */
  function Incr(f: nat): (r: nat)
    ensures Upper(r) == Upper(f)
    ensures Count(r) == if Latched(f) then REFCOUNT_MASK else Count(f) + 1
  {
    if Latched(f) then f else f + 1
  }

  /** What a successful, latched or underflowing latching_decr_int leaves in the word. */
  function Decr(f: nat): (r: nat)
    ensures Upper(r) == Upper(f)
    ensures Count(r) == if Latched(f) || Count(f) == 0 then Count(f) else Count(f) - 1
  {
    if Latched(f) || Count(f) == 0 then f else f - 1
  }

  /** `flags & ~BLOCK_REFCOUNT_MASK | BLOCK_NEEDS_FREE | n`, as written into a fresh heap copy. */
  function HeapWord(f: nat, n: nat): (r: nat)
    requires n <= REFCOUNT_MASK
    ensures Count(r) == n && NeedsFree(r)
    ensures Upper(r) == if NeedsFree(f) then Upper(f) else Upper(f) + 0x100
    ensures HasCopyDispose(r) == HasCopyDispose(f) && IsGlobal(r) == IsGlobal(f)
  {
    if NeedsFree(f) then Pack(Upper(f), n) else
      SetsNeedsFree(Upper(f));
      Pack(Upper(f) + 0x100, n)
  }

  /** Setting BLOCK_NEEDS_FREE leaves the bits above it alone. */
  lemma SetsNeedsFree(u: nat)
    requires u / 0x100 % 2 == 0
    ensures (u + 0x100) / 0x100 % 2 == 1 && (u + 0x100) / 0x200 == u / 0x200 && (u + 0x100) / 0x1000 == u / 0x1000
  {
    assert u / 0x100 == 2 * (u / 0x200);
  }

  function Pack(u: nat, n: nat): (r: nat)
    requires n <= REFCOUNT_MASK
    ensures Count(r) == n && Upper(r) == u
  {
    u * 0x10000 + n
  }
}
