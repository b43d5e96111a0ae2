/** The block bitmap: one bit per disk block, packed in bytes, packed in blocks. */
module Bitmap {
  import opened Common
  import opened Options

  const BITS_PER_BLOCK: nat := 8192

  /** One `BmapBlock`. */
  type Bits = seq<bv8>

  function Mask(k: nat): bv8
    requires k < 8
  {
    1 as bv8 << k
  }

  /** `is_allocated`. */
  predicate IsAllocated(bits: Bits, n: nat)
    requires |bits| == BLOCK_SIZE && n < BITS_PER_BLOCK
  {
    bits[n / 8] & Mask(n % 8) != 0
  }

  /** `allocate`. */
  function Allocate(bits: Bits, n: nat): Bits
    requires |bits| == BLOCK_SIZE && n < BITS_PER_BLOCK
  {
    bits[n / 8 := bits[n / 8] | Mask(n % 8)]
  }

  /** `free`. */
  function Release(bits: Bits, n: nat): Bits
    requires |bits| == BLOCK_SIZE && n < BITS_PER_BLOCK
  {
    bits[n / 8 := bits[n / 8] & !Mask(n % 8)]
  }

  lemma MaskBits(x: bv8, k: nat, j: nat)
    requires k < 8 && j < 8
    ensures (x | Mask(k)) & Mask(j) != 0 <==> k == j || x & Mask(j) != 0
    ensures (x & !Mask(k)) & Mask(j) != 0 <==> k != j && x & Mask(j) != 0
  {
    MaskValue(k);
    MaskValue(j);
    hide Mask;
    SetBit(x, Mask(k), Mask(j));
    MasksDiffer(k, j);
  }

  lemma MaskValue(k: nat)
    requires k < 8
    ensures Mask(k) == if k == 0 then 1 else if k == 1 then 2 else if k == 2 then 4 else if k == 3 then 8
                  else if k == 4 then 16 else if k == 5 then 32 else if k == 6 then 64 else 128
  {
  }

  lemma MasksDiffer(k: nat, j: nat)
    requires k < 8 && j < 8
    ensures k != j ==> Mask(k) & Mask(j) == 0
    ensures k == j ==> Mask(k) == Mask(j) != 0
  {
    MaskValue(k);
    MaskValue(j);
  }

  lemma SetBit(x: bv8, a: bv8, b: bv8)
    ensures a & b == 0 ==> (x | a) & b == x & b && (x & !a) & b == x & b
    ensures a == b ==> (x | a) & b == b && (x & !a) & b == 0
  {
  }

  // ----- the whole bitmap -----

  /** All bitmap blocks of a disk, enough for `size` bits. */
  ghost predicate Fits(bm: seq<Bits>, size: nat) {
    size <= |bm| * BITS_PER_BLOCK && forall i {:trigger bm[i]} :: 0 <= i < |bm| ==> |bm[i]| == BLOCK_SIZE
  }

  /** The bit of block `b`. */
  predicate Bit(bm: seq<Bits>, size: nat, b: nat)
    requires Fits(bm, size) && b < size
  {
    IsAllocated(bm[b / BITS_PER_BLOCK], b % BITS_PER_BLOCK)
  }

  /** The bitmap with the bit of `b` set or cleared. */
  function Put(bm: seq<Bits>, size: nat, b: nat, v: bool): (r: seq<Bits>)
    requires Fits(bm, size) && b < size
    ensures Fits(r, size) && |r| == |bm|
  {
    var i := b / BITS_PER_BLOCK;
    bm[i := if v then Allocate(bm[i], b % BITS_PER_BLOCK) else Release(bm[i], b % BITS_PER_BLOCK)]
  }

  /** Setting or clearing a bit changes that bit and no other. */
  lemma PutBit(bm: seq<Bits>, size: nat, b: nat, v: bool, c: nat)
    requires Fits(bm, size) && b < size && c < size
    ensures Bit(Put(bm, size, b, v), size, c) == if c == b then v else Bit(bm, size, c)
  {
    var n, m := b % BITS_PER_BLOCK, c % BITS_PER_BLOCK;
    if b / BITS_PER_BLOCK == c / BITS_PER_BLOCK {
      BlockBit(bm[b / BITS_PER_BLOCK], n, m);
    }
  }

  lemma BlockBit(bits: Bits, n: nat, m: nat)
    requires |bits| == BLOCK_SIZE && n < BITS_PER_BLOCK && m < BITS_PER_BLOCK
    ensures IsAllocated(Allocate(bits, n), m) <==> n == m || IsAllocated(bits, m)
    ensures IsAllocated(Release(bits, n), m) <==> n != m && IsAllocated(bits, m)
  {
    hide Mask;
    if n / 8 == m / 8 { MaskBits(bits[n / 8], n % 8, m % 8); }
  }

  /** The search of `alloc`: block by block, bit by bit, for the first clear bit. */
  method FindFree(bm: seq<Bits>, size: nat) returns (r: Option<nat>)
    requires Fits(bm, size)
    ensures r.Some? ==>
      r.value < size && !Bit(bm, size, r.value) && forall c: nat {:trigger Bit(bm, size, c)} :: c < r.value ==>
        Bit(bm, size, c)
    ensures r.None? ==> forall c: nat {:trigger Bit(bm, size, c)} :: c < size ==> Bit(bm, size, c)
  {
    hide Mask, IsAllocated;
    var start := 0;
    while start < size
      invariant start % BITS_PER_BLOCK == 0
      invariant forall c: nat {:trigger Bit(bm, size, c)} :: c < start && c < size ==> Bit(bm, size, c)
      decreases size - start
    {
      var k := 0;
      while k < BITS_PER_BLOCK && start + k < size
        invariant k <= BITS_PER_BLOCK
        invariant forall c: nat {:trigger Bit(bm, size, c)} :: c < start + k && c < size ==> Bit(bm, size, c)
        decreases BITS_PER_BLOCK - k
      {
        Split(start, k);
        if !IsAllocated(bm[start / BITS_PER_BLOCK], k) { return Some(start + k); }
        k := k + 1;
      }
      start := start + BITS_PER_BLOCK;
    }
    r := None;
  }

  lemma Split(start: nat, k: nat)
    requires start % BITS_PER_BLOCK == 0 && k < BITS_PER_BLOCK
    ensures (start + k) / BITS_PER_BLOCK == start / BITS_PER_BLOCK && (start + k) % BITS_PER_BLOCK == k
  {
  }
}
