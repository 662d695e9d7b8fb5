/** Shadow memory: one byte per eight bytes of application memory. */
module Shadow {

  const GRANULE: nat := 8
  const HEAP_LEFT_REDZONE: nat := 0xfa
  const HEAP_FREE: nat := 0xfd
  const AFTER_RETURN: nat := 0xf5

  /** A byte may be accessed: its granule is clear, or partly clear and the byte is in the clear part. */
  predicate Addressable(sh: seq<nat>, a: nat)
    requires a / GRANULE < |sh|
  {
    sh[a / GRANULE] == 0 || (sh[a / GRANULE] < 128 && a % GRANULE < sh[a / GRANULE])
  }

  /** Shadow bytes are 0, a count of leading bytes, or a tag. */
  predicate ShadowBytes(sh: seq<nat>) { forall g :: 0 <= g < |sh| ==> sh[g] < GRANULE || 128 <= sh[g] }

  /** Granules g .. g+n set to v. */
  function Fill(sh: seq<nat>, g: nat, n: nat, v: nat): (r: seq<nat>)
    requires g + n <= |sh|
    ensures |r| == |sh|
    ensures forall i :: 0 <= i < |sh| ==> r[i] == if g <= i < g + n then v else sh[i]
  {
    seq(|sh|, i requires 0 <= i < |sh| => if g <= i < g + n then v else sh[i])
  }

  /** PoisonShadow over the granules of [addr, addr + size): a non-zero value is
      written only while poisoning is on. */
  function Poison(sh: seq<nat>, canPoison: bool, addr: nat, size: nat, v: nat): (r: seq<nat>)
    ensures |r| == |sh|
    ensures forall g :: 0 <= g < |sh| ==>
      r[g] == if addr / GRANULE <= g < (addr + size) / GRANULE && (canPoison || v == 0) then v else sh[g]
  {
    seq(|sh|, g requires 0 <= g < |sh| =>
      if addr / GRANULE <= g < (addr + size) / GRANULE && (canPoison || v == 0) then v else sh[g])
  }

  /** The byte FastPoisonShadowPartialRightRedzone stores i granules into the redzone. */
  function PartialByte(i: nat, size: nat, partial: bool, v: nat): nat {
    if (i + 1) * GRANULE <= size then 0
    else if i * GRANULE >= size then v
    else if partial then size - i * GRANULE
    else 0
  }

  method Memset(sh: array<nat>, g: nat, n: nat, v: nat)
    requires g + n <= sh.Length
    modifies sh
    ensures sh[..] == Fill(old(sh[..]), g, n, v)
  {
    for k := 0 to n
      invariant forall i :: 0 <= i < sh.Length ==> sh[i] == if g <= i < g + k then v else old(sh[i])
    {
      sh[g + k] := v;
    }
  }

  method PoisonShadow(sh: array<nat>, canPoison: bool, addr: nat, size: nat, v: nat)
    requires (addr + size) / GRANULE <= sh.Length && addr % GRANULE == 0 && size % GRANULE == 0
    modifies sh
    ensures sh[..] == Poison(old(sh[..]), canPoison, addr, size, v)
  {
    if v != 0 && !canPoison { return; }
    Memset(sh, addr / GRANULE, size / GRANULE, v);
  }

  /** FastPoisonShadowPartialRightRedzone: `size` addressable bytes, then redzone. */
  method PoisonPartialRightRedzone(sh: array<nat>, addr: nat, size: nat, redzone: nat, partial: bool, v: nat)
    requires addr % GRANULE == 0 && redzone % GRANULE == 0 && (addr + redzone) / GRANULE <= sh.Length
    modifies sh
    ensures forall i :: 0 <= i < sh.Length ==>
      sh[i] == if addr / GRANULE <= i < (addr + redzone) / GRANULE
               then PartialByte(i - addr / GRANULE, size, partial, v) else old(sh[i])
  {
    var g, i := addr / GRANULE, 0;
    while i * GRANULE < redzone
      invariant 0 <= i <= redzone / GRANULE
      invariant forall k :: 0 <= k < sh.Length ==>
        sh[k] == if g <= k < g + i then PartialByte(k - g, size, partial, v) else old(sh[k])
    {
      if (i + 1) * GRANULE <= size {
        sh[g + i] := 0;
      } else if i * GRANULE >= size {
        sh[g + i] := v;
      } else {
        sh[g + i] := if partial then size - i * GRANULE else 0;
      }
      i := i + 1;
    }
  }
}
