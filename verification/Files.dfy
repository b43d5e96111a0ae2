/** The file layer over the block cache: a bitmap, data blocks and in-memory inodes, updated in place. */
module Files {
  import opened Common
  import opened Options
  import opened Blocks
  import opened InodeBlocks
  import opened InodeContent
  import opened DiskSpace
  import Bitmap

  ghost predicate Full(bm: seq<Bitmap.Bits>, size: nat) {
    Bitmap.Fits(bm, size) && forall b: nat {:trigger Bitmap.Bit(bm, size, b)} :: b < size ==> Bitmap.Bit(bm, size, b)
  }

  ghost predicate AllBacked(inodes: map<nat, Inode>, blocks: map<nat, Block>) {
    forall j {:trigger j in inodes} :: j in inodes ==> Backed(inodes[j], blocks, inodes[j].size)
  }

  ghost function Texts(inodes: map<nat, Inode>, blocks: map<nat, Block>): map<nat, seq<byte>> {
    map j | j in inodes :: Text(inodes[j], blocks, inodes[j].size)
  }

  lemma PreservesTrans(a: map<nat, Inode>, x: map<nat, Block>, b: map<nat, Inode>, y: map<nat, Block>,
                       c: map<nat, Inode>, z: map<nat, Block>)
    requires Preserves(a, x, b, y) && Preserves(b, y, c, z)
    ensures Preserves(a, x, c, z)
  {
    hide At;
  }

  class FileSystem {
    const size: nat
    const dataStart: nat
    var bm: seq<Bitmap.Bits>
    var blocks: map<nat, Block>
    var inodes: map<nat, Inode>
    ghost var owner: map<nat, Slot>

    ghost predicate Linked()
      reads this
    {
      Core(inodes, blocks, bm, owner, dataStart, size)
    }

    ghost predicate Valid()
      reads this
    {
      Linked() && AllBacked(inodes, blocks)
    }

    ghost function Contents(): map<nat, seq<byte>>
      reads this
    {
      Texts(inodes, blocks)
    }

    /** The blocks there are for data. */
    ghost function Capacity(): nat {
      if dataStart <= size then size - dataStart else 0
    }

    ghost function Abstract(): Disk
      reads this
    {
      Disk(Contents(), InUse(owner))
    }

    /** A file system whose inodes `inos` are all empty, with exactly its metadata marked allocated. */
    constructor (size: nat, dataStart: nat, bm: seq<Bitmap.Bits>, blocks: map<nat, Block>, inos: set<nat>)
      requires 0 < dataStart <= size < 0x1_0000_0000 && BlocksOk(blocks, size) && BitsOk(bm, map[], dataStart, size)
      ensures Valid() && this.size == size && this.dataStart == dataStart && this.bm == bm && this.blocks == blocks
      ensures Contents() == map j | j in inos :: []
      ensures InUse(owner) == {}
    {
      this.size, this.dataStart, this.bm, this.blocks := size, dataStart, bm, blocks;
      inodes := map j | j in inos :: Inode(seq(NUM_DIRECT + 1, _ => 0), 0);
      owner := map[];
    }

    /** `data_block::alloc`: the first free block, zeroed. */
    method Alloc() returns (r: Option<nat>)
      requires Linked()
      modifies this`bm, this`blocks
      ensures Bitmap.Fits(old(bm), size)
      ensures r.None? <==> Full(old(bm), size)
      ensures r.None? ==> bm == old(bm) && blocks == old(blocks) && Full(bm, size)
      ensures r.Some? ==>
        r.value < size && !Bitmap.Bit(old(bm), size, r.value) && r.value >= dataStart && r.value !in owner &&
        r.value in blocks
      ensures r.Some? ==>
        forall c: nat {:trigger Bitmap.Bit(old(bm), size, c)} :: c < r.value ==> Bitmap.Bit(old(bm), size, c)
      ensures r.Some? ==> bm == Bitmap.Put(old(bm), size, r.value, true) && blocks == old(blocks)[r.value := Zero()]
    {
      hide Bitmap.Put, Bitmap.Bit;
      r := Bitmap.FindFree(bm, size);
      if r.Some? {
        bm := Bitmap.Put(bm, size, r.value, true);
        blocks := blocks[r.value := Zero()];
      }
    }

    /** `get_or_alloc_direct_data_block`. */
    method GetDirect(ino: nat, i: nat) returns (r: Option<nat>)
      requires Linked() && ino in inodes && i < NUM_DIRECT
      modifies this
      ensures Linked() && Preserves(old(inodes), old(blocks), inodes, blocks) && ino in inodes
      ensures r.Some? ==> r.value == RefAt(inodes[ino], blocks, i) != 0
      ensures r.None? ==> RefAt(old(inodes)[ino], old(blocks), i) == 0 && Full(bm, size)
      ensures RefAt(old(inodes)[ino], old(blocks), i) != 0 ==>
        bm == old(bm) && blocks == old(blocks) && inodes == old(inodes)
      ensures forall j {:trigger inodes[j]} :: j in inodes && j != ino ==> inodes[j] == old(inodes)[j]
      ensures Grant(r.Some?, InUse(owner)) == TakeSlot(InUse(old(owner)), Capacity(), Slot(ino, i))
    {
      hide BlocksOk, LinksOk, BitsOk, Relinked, Preserves, Word, InUse, Full;
      assert At(inodes, blocks, Slot(ino, i)) == RefAt(inodes[ino], blocks, i);
      SlotsCounted(inodes, blocks, bm, owner, dataStart, size, Slot(ino, i));
      TakenOnce(InUse(owner), Capacity(), Slot(ino, i));
      if inodes[ino].addrs[i] != 0 {
        KeptAll(inodes, blocks, bm, owner, dataStart, size);
        return Some(inodes[ino].addrs[i]);
      }
      ghost var was := blocks;
      r := Alloc();
      if r.None? {
        KeptAll(inodes, blocks, bm, owner, dataStart, size);
        return;
      }
      var n := inodes[ino];
      inodes := inodes[ino := n.(addrs := n.addrs[i := r.value])];
      owner := owner[r.value := Slot(ino, i)];
      InUseAdded(old(owner), r.value, Slot(ino, i));
      DirectLinked(old(inodes), was, old(bm), old(owner), dataStart, size, ino, i, r.value);
    }

    /** The first half of `get_or_alloc_indirect_data_block`: the indirect block itself. */
    method GetIndirectBlock(ino: nat) returns (r: Option<nat>)
      requires Linked() && ino in inodes
      modifies this
      ensures Linked() && Preserves(old(inodes), old(blocks), inodes, blocks) && ino in inodes
      ensures r.Some? ==> r.value == RefAt(inodes[ino], blocks, INDIRECT) != 0
      ensures r.None? ==> RefAt(old(inodes)[ino], old(blocks), INDIRECT) == 0 && Full(bm, size)
      ensures RefAt(old(inodes)[ino], old(blocks), INDIRECT) != 0 ==>
        bm == old(bm) && blocks == old(blocks) && inodes == old(inodes)
      ensures forall k: nat {:trigger RefAt(inodes[ino], blocks, k)} ::
        NUM_DIRECT <= k < INDIRECT ==> RefAt(inodes[ino], blocks, k) == RefAt(old(inodes)[ino], old(blocks), k)
      ensures forall j {:trigger inodes[j]} :: j in inodes && j != ino ==> inodes[j] == old(inodes)[j]
      ensures Grant(r.Some?, InUse(owner)) == TakeSlot(InUse(old(owner)), Capacity(), Slot(ino, INDIRECT))
    {
      hide BlocksOk, LinksOk, BitsOk, Relinked, Preserves, Word, InUse, Full;
      assert At(inodes, blocks, Slot(ino, INDIRECT)) == RefAt(inodes[ino], blocks, INDIRECT);
      SlotsCounted(inodes, blocks, bm, owner, dataStart, size, Slot(ino, INDIRECT));
      TakenOnce(InUse(owner), Capacity(), Slot(ino, INDIRECT));
      if inodes[ino].addrs[NUM_DIRECT] != 0 {
        KeptAll(inodes, blocks, bm, owner, dataStart, size);
        return Some(inodes[ino].addrs[NUM_DIRECT]);
      }
      r := Alloc();
      if r.None? {
        KeptAll(inodes, blocks, bm, owner, dataStart, size);
        return;
      }
      var n := inodes[ino];
      inodes := inodes[ino := n.(addrs := n.addrs[NUM_DIRECT := r.value])];
      owner := owner[r.value := Slot(ino, INDIRECT)];
      InUseAdded(old(owner), r.value, Slot(ino, INDIRECT));
      IndirectLinked(old(inodes), old(blocks), old(bm), old(owner), dataStart, size, ino, r.value);
    }

    /** `get_or_alloc_indirect_data_block`. */
    method GetIndirect(ino: nat, i: nat) returns (r: Option<nat>)
      requires Linked() && ino in inodes && i < NUM_INDIRECT
      modifies this
      ensures Linked() && Preserves(old(inodes), old(blocks), inodes, blocks) && ino in inodes
      ensures r.Some? ==> r.value == RefAt(inodes[ino], blocks, NUM_DIRECT + i) != 0
      ensures r.None? ==> RefAt(old(inodes)[ino], old(blocks), NUM_DIRECT + i) == 0 && Full(bm, size)
      ensures RefAt(old(inodes)[ino], old(blocks), NUM_DIRECT + i) != 0 ==>
        bm == old(bm) && blocks == old(blocks) && inodes == old(inodes)
      ensures forall j {:trigger inodes[j]} :: j in inodes && j != ino ==> inodes[j] == old(inodes)[j]
      ensures Grant(r.Some?, InUse(owner)) == TakeBlock(InUse(old(owner)), Capacity(), ino, NUM_DIRECT + i)
    {
      hide BlocksOk, LinksOk, BitsOk, Relinked, Preserves, Word, SetWord, InUse, Full;
      var ind := GetIndirectBlock(ino);
      assert RefAt(inodes[ino], blocks, NUM_DIRECT + i) == RefAt(old(inodes)[ino], old(blocks), NUM_DIRECT + i);
      if ind.None? { return None; }
      BlockThere(inodes, blocks, bm, owner, dataStart, size, Slot(ino, INDIRECT));
      SlotsCounted(inodes, blocks, bm, owner, dataStart, size, Slot(ino, NUM_DIRECT + i));
      TakenOnce(InUse(owner), Capacity(), Slot(ino, NUM_DIRECT + i));
      assert At(inodes, blocks, Slot(ino, NUM_DIRECT + i)) == Word(blocks[ind.value], i);
      if Word(blocks[ind.value], i) != 0 { return Some(Word(blocks[ind.value], i)); }
      ghost var mid, midInodes, midBits, midOwner := blocks, inodes, bm, owner;
      r := Alloc();
      if r.None? { return; }
      blocks := blocks[ind.value := SetWord(blocks[ind.value], i, r.value)];
      owner := owner[r.value := Slot(ino, NUM_DIRECT + i)];
      InUseAdded(midOwner, r.value, Slot(ino, NUM_DIRECT + i));
      InsideLinked(inodes, mid, midBits, midOwner, dataStart, size, ino, i, r.value);
      PreservesTrans(old(inodes), old(blocks), midInodes, mid, inodes, blocks);
    }

    /** `get_or_alloc_data_block`. */
    method GetBlock(ino: nat, k: nat) returns (r: Option<nat>)
      requires Linked() && ino in inodes && k < MAX_FILE
      modifies this
      ensures Linked() && Preserves(old(inodes), old(blocks), inodes, blocks) && ino in inodes
      ensures r.Some? ==> r.value == RefAt(inodes[ino], blocks, k) != 0
      ensures r.None? ==> RefAt(old(inodes)[ino], old(blocks), k) == 0 && Full(bm, size)
      ensures RefAt(old(inodes)[ino], old(blocks), k) != 0 ==>
        bm == old(bm) && blocks == old(blocks) && inodes == old(inodes)
      ensures forall j {:trigger inodes[j]} :: j in inodes && j != ino ==> inodes[j] == old(inodes)[j]
      ensures Grant(r.Some?, InUse(owner)) == TakeBlock(InUse(old(owner)), Capacity(), ino, k)
    {
      hide Core, RefAt, Preserves, Full, InUse;
      if k < NUM_DIRECT { r := GetDirect(ino, k); } else { r := GetIndirect(ino, k - NUM_DIRECT); }
    }

    /** The store into the block that holds offset `off`; `len` bytes of the inode count so far. */
    method Store(ino: nat, off: nat, s: seq<byte>, bn: nat, ghost len: nat)
      requires Linked() && ino in inodes && off <= len <= MAX_FILE * BLOCK_SIZE && Backed(inodes[ino], blocks, len)
      requires 0 < |s| && off % BLOCK_SIZE + |s| <= BLOCK_SIZE && off + |s| <= MAX_FILE * BLOCK_SIZE
      requires bn == RefAt(inodes[ino], blocks, off / BLOCK_SIZE) != 0
      modifies this`blocks
      ensures Linked() && OthersKept(inodes, old(blocks), inodes, blocks, ino)
      ensures Backed(inodes[ino], blocks, Max(len, off + |s|))
      ensures Text(inodes[ino], blocks, Max(len, off + |s|)) == Spliced(Text(inodes[ino], old(blocks), len), off, s)
      ensures forall i: nat {:trigger Text(inodes[ino], blocks, Max(len, off + |s|))[i]} :: i < Max(len, off + |s|) ==>
        Text(inodes[ino], blocks, Max(len, off + |s|))[i] ==
          if off <= i < off + |s| then s[i - off] else Text(inodes[ino], old(blocks), len)[i]
    {
      hide Core, RefAt, OthersKept, Text, Backed, Spliced;
      SplicedBytes(Text(inodes[ino], blocks, len), off, s);
      Stored(inodes, blocks, bm, owner, dataStart, size, ino, off, s, len);
      blocks := blocks[bn := Patched(blocks[bn], off % BLOCK_SIZE, s)];
    }

    /** The loop of `write`: it ends after all of `src`, or at the first block it cannot get. */
    method WriteLoop(ino: nat, src: seq<byte>, off: nat) returns (tot: nat)
      requires Valid() && ino in inodes && off <= inodes[ino].size && off + |src| <= MAX_FILE * BLOCK_SIZE
      modifies this
      ensures tot <= |src| && Linked() && inodes.Keys == old(inodes).Keys && inodes[ino].size == old(inodes)[ino].size
      ensures OthersKept(old(inodes), old(blocks), inodes, blocks, ino)
      ensures Backed(inodes[ino], blocks, Max(inodes[ino].size, off + tot))
      ensures Text(inodes[ino], blocks, Max(inodes[ino].size, off + tot)) ==
        Spliced(Text(old(inodes)[ino], old(blocks), old(inodes)[ino].size), off, src[..tot])
      ensures tot < |src| ==> Full(bm, size)
      ensures (tot, InUse(owner)) == Extent(InUse(old(owner)), Capacity(), ino, off, |src|, 0)
    {
      hide Core, RefAt, OthersKept, Text, Backed, AllBacked, Preserves, Full, Spliced, InodesOk,
        InUse, TakeBlock, Extent;
      var size0 := inodes[ino].size;
      ghost var text0 := Text(inodes[ino], blocks, size0);
      Untouched(inodes, blocks, bm, owner, dataStart, size, ino, off);
      tot := 0;
      while tot < |src|
        invariant tot <= |src| && Linked() && ino in inodes && inodes.Keys == old(inodes).Keys
        invariant inodes[ino].size == size0
        invariant OthersKept(old(inodes), old(blocks), inodes, blocks, ino)
        invariant Backed(inodes[ino], blocks, Max(size0, off + tot))
        invariant Text(inodes[ino], blocks, Max(size0, off + tot)) == Spliced(text0, off, src[..tot])
        invariant Extent(InUse(owner), Capacity(), ino, off, |src|, tot) ==
          Extent(InUse(old(owner)), Capacity(), ino, off, |src|, 0)
        decreases |src| - tot
      {
        var at := off + tot;
        ghost var inodes1, blocks1, len := inodes, blocks, Max(size0, off + tot);
        CoreInodes(inodes, blocks, bm, owner, dataStart, size);
        ExtentNext(InUse(owner), Capacity(), ino, off, |src|, tot);
        var bn := GetBlock(ino, at / BLOCK_SIZE);
        StillThere(old(inodes), old(blocks), inodes1, blocks1, inodes, blocks, ino, len);
        if bn.None? { return; }
        ghost var blocks2 := blocks;
        var m := Min(|src| - tot, BLOCK_SIZE - at % BLOCK_SIZE);
        Store(ino, at, src[tot..tot + m], bn.value, len);
        OthersTrans(old(inodes), old(blocks), inodes, blocks2, inodes, blocks, ino);
        Grown(text0, off, src, tot, m);
        tot := tot + m;
      }
      ExtentEnd(InUse(owner), Capacity(), ino, off, |src|);
    }

    /** `write`: all of `src`, or as much as the free blocks allow. */
    method Write(ino: nat, src: seq<byte>, off: nat) returns (r: Written)
      requires Valid() && ino in inodes
      modifies this
      ensures Valid() && inodes.Keys == old(inodes).Keys
      ensures r.FileTooLarge? <==> off + |src| > MAX_FILE * BLOCK_SIZE
      ensures r.OffsetTooLarge? <==> off + |src| <= MAX_FILE * BLOCK_SIZE && off > old(inodes)[ino].size
      ensures !r.Wrote? ==> Contents() == old(Contents())
      ensures r.Wrote? ==> r.n <= |src| && off <= |old(Contents())[ino]|
      ensures r.Wrote? ==> Contents() == old(Contents())[ino := Spliced(old(Contents())[ino], off, src[..r.n])]
      ensures r.Wrote? ==> var f, g := old(Contents())[ino], Contents()[ino];
        |g| == Max(|f|, off + r.n) && forall i {:trigger g[i]} :: 0 <= i < |g| ==>
          g[i] == if off <= i < off + r.n then src[i - off] else f[i]
      ensures r.OutOfBlocks? || (r.Wrote? && r.n < |src|) ==> Full(bm, size)
      ensures !r.Wrote? && !r.OutOfBlocks? ==> InUse(owner) == InUse(old(owner))
      ensures r.Wrote? || r.OutOfBlocks? ==>
        (if r.Wrote? then r.n else 0, InUse(owner)) == Extent(InUse(old(owner)), Capacity(), ino, off, |src|, 0)
      ensures r.OutOfBlocks? ==> 0 < |src|
      ensures r.Wrote? && 0 < |src| ==> 0 < r.n
    {
      hide Core, RefAt, OthersKept, Text, Backed, AllBacked, Preserves, Full, Spliced, InodesOk, InUse, Extent;
      if off + |src| > MAX_FILE * BLOCK_SIZE { return FileTooLarge; }
      var size0 := inodes[ino].size;
      if off > size0 { return OffsetTooLarge; }
      ghost var text0 := Text(inodes[ino], blocks, size0);
      Untouched(inodes, blocks, bm, owner, dataStart, size, ino, off);
      var tot := WriteLoop(ino, src, off);
      if tot == 0 && 0 < |src| {
        assert src[..tot] == src[..0];
        FilesAfter(old(inodes), old(blocks), inodes, blocks, ino, text0);
        assert old(Contents())[ino := text0] == old(Contents());
        return OutOfBlocks;
      }
      ghost var inodes3 := inodes;
      if off + tot > size0 { inodes := inodes[ino := inodes[ino].(size := off + tot)]; }
      Resized(inodes3, blocks, bm, owner, dataStart, size, ino, Max(size0, off + tot));
      assert inodes == inodes3[ino := inodes3[ino].(size := Max(size0, off + tot))];
      OthersTrans(old(inodes), old(blocks), inodes3, blocks, inodes, blocks, ino);
      FilesAfter(old(inodes), old(blocks), inodes, blocks, ino, Spliced(text0, off, src[..tot]));
      SplicedBytes(text0, off, src[..tot]);
      r := Wrote(tot);
    }

    /** `read`: the bytes from `off` on, at most `len`; nothing is allocated on the way. */
    method Read(ino: nat, len: nat, off: nat) returns (data: seq<byte>)
      requires Valid() && ino in inodes
      modifies this
      ensures Valid() && bm == old(bm) && blocks == old(blocks) && inodes == old(inodes)
      ensures InUse(owner) == InUse(old(owner))
      ensures off > inodes[ino].size || off + len >= USIZE ==> data == []
      ensures off <= inodes[ino].size && off + len < USIZE ==>
        data == Contents()[ino][off..off + Min(len, inodes[ino].size - off)]
    {
      hide Core, RefAt, Text, Preserves, Full, Backed;
      if off > inodes[ino].size || off + len >= USIZE { return []; }
      var n := Min(len, inodes[ino].size - off);
      ghost var text := Text(inodes[ino], blocks, inodes[ino].size);
      data := [];
      var tot := 0;
      while tot < n
        invariant tot <= n && Valid() && bm == old(bm) && blocks == old(blocks) && inodes == old(inodes)
        invariant data == text[off..off + tot] && InUse(owner) == InUse(old(owner))
        decreases n - tot
      {
        var at := off + tot;
        var m := Min(n - tot, BLOCK_SIZE - at % BLOCK_SIZE);
        ReadStep(inodes, blocks, bm, owner, dataStart, size, ino, off, tot, m);
        SlotsCounted(inodes, blocks, bm, owner, dataStart, size, Slot(ino, at / BLOCK_SIZE));
        TakenAlready(inodes, blocks, bm, owner, dataStart, size, ino, at / BLOCK_SIZE);
        var bn := GetBlock(ino, at / BLOCK_SIZE);
        data := data + blocks[bn.value][at % BLOCK_SIZE..at % BLOCK_SIZE + m];
        tot := tot + m;
      }
    }

    /** `data_block::free`: that block is free and no other changes; the assertion is the precondition. */
    method Free(b: nat)
      requires Bitmap.Fits(bm, size) && b < size && Bitmap.Bit(bm, size, b)
      modifies this`bm
      ensures Bitmap.Fits(old(bm), size) && bm == Bitmap.Put(old(bm), size, b, false)
      ensures forall c: nat {:trigger Bitmap.Bit(bm, size, c)} :: c < size ==>
        (Bitmap.Bit(bm, size, c) <==> Bitmap.Bit(old(bm), size, c) && c != b)
    {
      hide Bitmap.Put, Bitmap.Bit;
      forall c: nat | c < size
        ensures Bitmap.Bit(Bitmap.Put(bm, size, b, false), size, c) == if c == b then false else Bitmap.Bit(bm, size, c)
      {
        Bitmap.PutBit(bm, size, b, false, c);
      }
      bm := Bitmap.Put(bm, size, b, false);
    }

    method TruncateDirect(ino: nat)
      requires Linked() && ino in inodes
      modifies this`bm, this`inodes, this`owner
      ensures Linked() && Dropped(old(owner), owner, ino, NUM_DIRECT)
      ensures inodes == old(inodes)[ino := old(inodes)[ino].(addrs := Cleared(old(inodes)[ino].addrs, NUM_DIRECT))]
    {
      hide LinksOk, BitsOk, BlocksOk, Word;
      var i := 0;
      assert Cleared(inodes[ino].addrs, 0) == inodes[ino].addrs;
      assert inodes == inodes[ino := inodes[ino].(addrs := Cleared(inodes[ino].addrs, 0))];
      while i < NUM_DIRECT
        invariant i <= NUM_DIRECT && Linked() && ino in inodes && Dropped(old(owner), owner, ino, i)
        invariant inodes == old(inodes)[ino := old(inodes)[ino].(addrs := Cleared(old(inodes)[ino].addrs, i))]
      {
        DroppedOne(old(owner), owner, ino, i, inodes, blocks, bm, dataStart, size);
        ClearedStep(old(inodes)[ino].addrs, i);
        var bn := inodes[ino].addrs[i];
        assert bn == At(inodes, blocks, Slot(ino, i));
        if bn != 0 {
          DirectUnlinked(inodes, blocks, bm, owner, dataStart, size, ino, i);
          inodes := inodes[ino := inodes[ino].(addrs := inodes[ino].addrs[i := 0])];
          Free(bn);
          owner := owner - {bn};
        }
        i := i + 1;
      }
    }

    /** The loop over the references inside the indirect block `ind`, which `ino` has just given up. `shadow`
        is the inode table with the reference to `ind` still in place. */
    method DrainIndirect(ino: nat, ind: nat, ghost shadow: map<nat, Inode>, ghost owner0: map<nat, Slot>)
      requires Dropped(owner0, owner, ino, NUM_DIRECT)
      requires Core(shadow, blocks, bm, owner, dataStart, size) && ino in shadow
      requires ind == RefAt(shadow[ino], blocks, INDIRECT) != 0
      modifies this`bm, this`blocks, this`owner
      ensures Core(shadow, blocks, bm, owner, dataStart, size) && ind == RefAt(shadow[ino], blocks, INDIRECT)
      ensures forall k: nat {:trigger RefAt(shadow[ino], blocks, k)} ::
        NUM_DIRECT <= k < INDIRECT ==> RefAt(shadow[ino], blocks, k) == 0
      ensures ind in blocks && |blocks[ind]| == BLOCK_SIZE && blocks == old(blocks)[ind := blocks[ind]]
      ensures Dropped(owner0, owner, ino, INDIRECT)
    {
      hide Core, RefAt, Word, SetWord, Dropped;
      var i := 0;
      InsideUnlinked(shadow, blocks, bm, owner, dataStart, size, ino, 0);
      assert old(blocks) == old(blocks)[ind := old(blocks)[ind]];
      while i < NUM_INDIRECT
        invariant i <= NUM_INDIRECT && Core(shadow, blocks, bm, owner, dataStart, size)
        invariant ind == RefAt(shadow[ino], blocks, INDIRECT)
        invariant forall k: nat {:trigger RefAt(shadow[ino], blocks, k)} ::
          NUM_DIRECT <= k < NUM_DIRECT + i ==> RefAt(shadow[ino], blocks, k) == 0
        invariant ind in blocks && |blocks[ind]| == BLOCK_SIZE && blocks == old(blocks)[ind := blocks[ind]]
        invariant Dropped(owner0, owner, ino, NUM_DIRECT + i)
      {
        InsideUnlinked(shadow, blocks, bm, owner, dataStart, size, ino, i);
        DroppedOne(owner0, owner, ino, NUM_DIRECT + i, shadow, blocks, bm, dataStart, size);
        var bn := Word(blocks[ind], i);
        blocks := blocks[ind := SetWord(blocks[ind], i, 0)];
        if bn != 0 {
          Free(bn);
          owner := owner - {bn};
        }
        i := i + 1;
      }
    }

    /** `truncate`: gives back exactly the blocks of the inode. */
    method Truncate(ino: nat)
      requires Valid() && ino in inodes
      modifies this
      ensures Valid() && inodes == old(inodes)[ino := Inode(seq(NUM_DIRECT + 1, _ => 0), 0)]
      ensures Contents() == old(Contents())[ino := []]
      ensures forall b: nat {:trigger b in owner} :: b in owner <==> b in old(owner) && old(owner)[b].ino != ino
      ensures InUse(owner) == set s | s in InUse(old(owner)) && s.ino != ino
      ensures Bitmap.Fits(old(bm), size) && Bitmap.Fits(bm, size)
      ensures forall b: nat {:trigger Bitmap.Bit(bm, size, b)} :: b < size ==>
        (Bitmap.Bit(bm, size, b) <==> Bitmap.Bit(old(bm), size, b) && !(b in old(owner) && old(owner)[b].ino == ino))
    {
      hide Core, Word, SetWord, Text, Backed, AllBacked, Texts, OthersKept, Dropped, At;
      TruncateDirect(ino);
      CoreInodes(inodes, blocks, bm, owner, dataStart, size);
      var ind := inodes[ino].addrs[NUM_DIRECT];
      DroppedRest(old(owner), owner, ino, inodes, blocks, bm, dataStart, size);
      if ind != 0 {
        ghost var shadow := inodes;
        inodes := inodes[ino := inodes[ino].(addrs := inodes[ino].addrs[NUM_DIRECT := 0])];
        DrainIndirect(ino, ind, shadow, old(owner));
        IndirectUnlinked(shadow, blocks, bm, owner, dataStart, size, ino);
        DroppedOne(old(owner), owner, ino, INDIRECT, shadow, blocks, bm, dataStart, size);
        Free(ind);
        owner := owner - {ind};
      }
      ghost var emptied := inodes;
      inodes := inodes[ino := inodes[ino].(size := 0)];
      Resized(emptied, blocks, bm, owner, dataStart, size, ino, 0);
      assert inodes[ino].addrs == seq(NUM_DIRECT + 1, _ => 0);
      InUseDropped(old(inodes), old(blocks), old(bm), old(owner), dataStart, size, ino, owner);
      Truncated(old(inodes), old(blocks), old(bm), old(owner), dataStart, size, ino, inodes, blocks, bm, owner);
    }
  }

  // ----- histories -----

  /** Each call answers and acts exactly as on sequences of bytes and a number of blocks. */
  method Perform(fs: FileSystem, call: Call) returns (reply: Reply)
    requires fs.Valid() && call.ino in fs.inodes
    modifies fs
    ensures fs.Valid() && fs.inodes.Keys == old(fs.inodes).Keys
    ensures (reply, fs.Abstract()) == Answer(old(fs.Abstract()), fs.Capacity(), call)
  {
    hide Core, AllBacked, Spliced, Text, InUse, Extent;
    match call
    case ReadCall(ino, len, off) =>
      var data := fs.Read(ino, len, off);
      reply := Bytes(data);
    case WriteCall(ino, src, off) =>
      var w := fs.Write(ino, src, off);
      reply := Result(w);
    case TruncateCall(ino) =>
      fs.Truncate(ino);
      reply := Done;
  }

  /** Any history of calls gets exactly the answers the same history gets on one independent sequence of bytes per
      inode with a number of blocks to share. */
  method Play(fs: FileSystem, calls: seq<Call>) returns (replies: seq<Reply>)
    requires fs.Valid() && forall i {:trigger calls[i]} :: 0 <= i < |calls| ==> calls[i].ino in fs.inodes
    modifies fs
    ensures fs.Valid() && Known(old(fs.Contents()), calls)
    ensures (replies, fs.Abstract()) == Answers(old(fs.Abstract()), fs.Capacity(), calls)
  {
    hide Core, AllBacked, Answer, Answers, Text, InUse;
    replies := [];
    ghost var start := fs.Abstract();
    assert calls[0..] == calls && [] + Answers(start, fs.Capacity(), calls).0 == Answers(start, fs.Capacity(), calls).0;
    var n := 0;
    while n < |calls|
      invariant n <= |calls| && fs.Valid() && fs.inodes.Keys == old(fs.inodes).Keys
      invariant Known(start.files, calls) && Known(fs.Contents(), calls[n..])
      invariant Answers(start, fs.Capacity(), calls).0 ==
        replies + Answers(fs.Abstract(), fs.Capacity(), calls[n..]).0
      invariant Answers(start, fs.Capacity(), calls).1 == Answers(fs.Abstract(), fs.Capacity(), calls[n..]).1
    {
      AnswersNext(fs.Abstract(), fs.Capacity(), calls, n, replies);
      var r := Perform(fs, calls[n]);
      replies, n := replies + [r], n + 1;
    }
    NoCalls(fs.Abstract(), fs.Capacity(), calls[n..]);
    assert replies + [] == replies;
  }

  lemma NoCalls(d: Disk, cap: nat, calls: seq<Call>)
    requires calls == []
    ensures Known(d.files, calls) && Answers(d, cap, calls) == ([], d)
  {
  }

  // ----- slots in use -----

  /** The slots that have a block. */
  ghost function InUse(owner: map<nat, Slot>): set<Slot> {
    set b | b in owner :: owner[b]
  }

  lemma InUseAdded(owner: map<nat, Slot>, b: nat, s: Slot)
    requires b !in owner
    ensures InUse(owner[b := s]) == InUse(owner) + {s}
  {
    var owner' := owner[b := s];
    forall t ensures t in InUse(owner') <==> t in InUse(owner) || t == s {
      if t in InUse(owner) {
        var c :| c in owner && owner[c] == t;
        assert c in owner' && owner'[c] == t;
      }
      assert b in owner' && owner'[b] == s;
    }
  }

  lemma {:induction false} InUseSize(owner: map<nat, Slot>)
    requires forall b, c {:trigger owner[b], owner[c]} :: b in owner && c in owner && owner[b] == owner[c] ==> b == c
    ensures |InUse(owner)| == |owner|
    decreases |owner|
  {
    if owner == map[] {
      assert InUse(owner) == {};
    } else {
      var b :| b in owner;
      var rest := owner - {b};
      assert owner == rest[b := owner[b]] && |rest| == |owner| - 1;
      InUseSize(rest);
      InUseAdded(rest, b, owner[b]);
    }
  }

  /** A slot has a block exactly when it refers to one; the disk is full exactly when every block has a slot. */
  lemma SlotsCounted(inodes: map<nat, Inode>, blocks: map<nat, Block>, bm: seq<Bitmap.Bits>, owner: map<nat, Slot>,
                     dataStart: nat, size: nat, s: Slot)
    requires Core(inodes, blocks, bm, owner, dataStart, size)
    ensures s in InUse(owner) <==> At(inodes, blocks, s) != 0
    ensures |InUse(owner)| <= size - dataStart && (Full(bm, size) <==> |InUse(owner)| == size - dataStart)
  {
    hide At, BlocksOk, InodesOk;
    assert At(inodes, blocks, s) != 0 ==> At(inodes, blocks, s) in owner;
    InUseSize(owner);
    var data := Range(dataStart, size);
    assert owner.Keys <= data;
    Within(owner.Keys, data);
    if |owner| == size - dataStart { SameSet(owner.Keys, data); }
    if Full(bm, size) {
      FullMeansOwned(bm, owner, dataStart, size);
      assert owner.Keys == data;
    }
  }

  lemma FullMeansOwned(bm: seq<Bitmap.Bits>, owner: map<nat, Slot>, dataStart: nat, size: nat)
    requires BitsOk(bm, owner, dataStart, size) && Full(bm, size)
    ensures forall b: nat :: dataStart <= b < size ==> b in owner
  {
    hide Bitmap.Bit;
    forall b: nat | dataStart <= b < size ensures b in owner { assert Bitmap.Bit(bm, size, b); }
  }

  lemma SameSet(x: set<nat>, y: set<nat>)
    requires x <= y && |x| == |y|
    ensures x == y
  {
    assert y == x + (y - x);
  }

  /** Nothing is taken for a block that is there. */
  lemma TakenAlready(inodes: map<nat, Inode>, blocks: map<nat, Block>, bm: seq<Bitmap.Bits>, owner: map<nat, Slot>,
                     dataStart: nat, size: nat, ino: nat, k: nat)
    requires Core(inodes, blocks, bm, owner, dataStart, size) && ino in inodes && k < MAX_FILE
    requires RefAt(inodes[ino], blocks, k) != 0
    ensures TakeBlock(InUse(owner), size - dataStart, ino, k) == Grant(true, InUse(owner))
  {
    SlotsCounted(inodes, blocks, bm, owner, dataStart, size, Slot(ino, k));
    SlotsCounted(inodes, blocks, bm, owner, dataStart, size, Slot(ino, INDIRECT));
    hide Core, InUse, Word;
    assert Slot(ino, k) in InUse(owner) && InUse(owner) + {Slot(ino, k)} == InUse(owner);
    assert k >= NUM_DIRECT ==>
        Slot(ino, INDIRECT) in InUse(owner) && InUse(owner) + {Slot(ino, INDIRECT)} == InUse(owner);
  }

  lemma InUseDropped(inodes: map<nat, Inode>, blocks: map<nat, Block>, bm: seq<Bitmap.Bits>, owner: map<nat, Slot>,
                     dataStart: nat, size: nat, ino: nat, owner': map<nat, Slot>)
    requires Core(inodes, blocks, bm, owner, dataStart, size) && Dropped(owner, owner', ino, INDIRECT + 1)
    ensures InUse(owner') == set s | s in InUse(owner) && s.ino != ino
  {
    TruncatedOwners(inodes, blocks, bm, owner, dataStart, size, ino, owner');
    hide Core;
    forall s ensures s in InUse(owner') <==> s in InUse(owner) && s.ino != ino {
      if s in InUse(owner') {
        var b :| b in owner' && owner'[b] == s;
        assert b in owner;
      }
      if s in InUse(owner) && s.ino != ino {
        var b :| b in owner && owner[b] == s;
        assert b in owner';
      }
    }
  }

  /** Block numbers with the first `n` taken away. */
  function Cleared(addrs: seq<nat>, n: nat): (r: seq<nat>)
    requires n <= |addrs|
    ensures |r| == |addrs|
  {
    seq(n, _ => 0) + addrs[n..]
  }

  lemma ClearedStep(addrs: seq<nat>, n: nat)
    requires n < |addrs|
    ensures Cleared(addrs, n)[n] == addrs[n] && Cleared(addrs, n)[n := 0] == Cleared(addrs, n + 1)
    ensures addrs[n] == 0 ==> Cleared(addrs, n + 1) == Cleared(addrs, n)
  {
  }

  /** Every inode but one has its bytes as before. */
  ghost predicate OthersKept(inodes: map<nat, Inode>, blocks: map<nat, Block>, inodes': map<nat, Inode>,
                             blocks': map<nat, Block>, ino: nat) {
    forall j {:trigger j in inodes'} :: j in inodes' && j in inodes && j != ino ==>
      inodes'[j] == inodes[j] && (Backed(inodes[j], blocks, inodes[j].size) ==>
        Backed(inodes'[j], blocks', inodes[j].size) &&
        Text(inodes'[j], blocks', inodes[j].size) == Text(inodes[j], blocks, inodes[j].size))
  }

  lemma OthersTrans(a: map<nat, Inode>, x: map<nat, Block>, b: map<nat, Inode>, y: map<nat, Block>, c: map<nat, Inode>,
                    z: map<nat, Block>, ino: nat)
    requires OthersKept(a, x, b, y, ino) && OthersKept(b, y, c, z, ino) && a.Keys == b.Keys == c.Keys
    ensures OthersKept(a, x, c, z, ino)
  {
    hide Backed, Text;
  }

  lemma Untouched(inodes: map<nat, Inode>, blocks: map<nat, Block>, bm: seq<Bitmap.Bits>, owner: map<nat, Slot>,
                  dataStart: nat, size: nat, ino: nat, off: nat)
    requires Core(inodes, blocks, bm, owner, dataStart, size) && AllBacked(inodes, blocks) && ino in inodes
    requires off <= inodes[ino].size
    ensures OthersKept(inodes, blocks, inodes, blocks, ino) && Backed(inodes[ino], blocks, inodes[ino].size)
    ensures inodes[ino].size <= MAX_FILE * BLOCK_SIZE
    ensures forall src: seq<byte> {:trigger src[..0]} ::
      Spliced(Text(inodes[ino], blocks, inodes[ino].size), off, src[..0]) == Text(inodes[ino], blocks, inodes[ino].size)
  {
    hide Backed, Text;
  }

  /** Finding or allocating a block changes no byte that counts. */
  lemma StillThere(inodes0: map<nat, Inode>, blocks0: map<nat, Block>, inodes: map<nat, Inode>, blocks: map<nat, Block>,
                   inodes': map<nat, Inode>, blocks': map<nat, Block>, ino: nat, len: nat)
    requires Preserves(inodes, blocks, inodes', blocks') && ino in inodes && Backed(inodes[ino], blocks, len)
    requires len <= MAX_FILE * BLOCK_SIZE
    requires OthersKept(inodes0, blocks0, inodes, blocks, ino) && inodes0.Keys == inodes.Keys && InodesOk(inodes)
    requires forall j {:trigger inodes'[j]} :: j in inodes' && j != ino ==> inodes'[j] == inodes[j]
    ensures inodes'.Keys == inodes.Keys && inodes'[ino].size == inodes[ino].size
    ensures OthersKept(inodes0, blocks0, inodes', blocks', ino)
    ensures Backed(inodes'[ino], blocks', len) && Text(inodes'[ino], blocks', len) == Text(inodes[ino], blocks, len)
  {
    hide Backed, Text, At;
    TextPreserved(inodes, blocks, inodes', blocks', ino, len);
    forall j {:trigger j in inodes'} | j in inodes' && j in inodes && j != ino
      ensures inodes'[j] == inodes[j] && (Backed(inodes[j], blocks, inodes[j].size) ==>
        Backed(inodes'[j], blocks', inodes[j].size) &&
        Text(inodes'[j], blocks', inodes[j].size) == Text(inodes[j], blocks, inodes[j].size))
    {
      if Backed(inodes[j], blocks, inodes[j].size) {
        TextPreserved(inodes, blocks, inodes', blocks', j, inodes[j].size);
      }
    }
    OthersTrans(inodes0, blocks0, inodes, blocks, inodes', blocks', ino);
  }

  lemma CoreInodes(inodes: map<nat, Inode>, blocks: map<nat, Block>, bm: seq<Bitmap.Bits>, owner: map<nat, Slot>,
                   dataStart: nat, size: nat)
    requires Core(inodes, blocks, bm, owner, dataStart, size)
    ensures InodesOk(inodes)
  {
  }

  lemma Grown(text0: seq<byte>, off: nat, src: seq<byte>, tot: nat, m: nat)
    requires off <= |text0| && tot + m <= |src|
    ensures off + tot <= |Spliced(text0, off, src[..tot])|
    ensures Spliced(Spliced(text0, off, src[..tot]), off + tot, src[tot..tot + m]) ==
      Spliced(text0, off, src[..tot + m])
  {
    SplicedTwice(text0, off, src[..tot], src[tot..tot + m]);
    assert src[..tot] + src[tot..tot + m] == src[..tot + m];
  }

  lemma KeptAll(inodes: map<nat, Inode>, blocks: map<nat, Block>, bm: seq<Bitmap.Bits>, owner: map<nat, Slot>,
                dataStart: nat, size: nat)
    requires Core(inodes, blocks, bm, owner, dataStart, size)
    ensures Preserves(inodes, blocks, inodes, blocks)
  {
    hide At, BitsOk;
  }

  lemma DirectLinked(inodes: map<nat, Inode>, blocks: map<nat, Block>, bm: seq<Bitmap.Bits>, owner: map<nat, Slot>,
                     dataStart: nat, size: nat, ino: nat, i: nat, b: nat)
    requires Core(inodes, blocks, bm, owner, dataStart, size) && b < size && !Bitmap.Bit(bm, size, b) && b !in owner
    requires b >= dataStart
    requires ino in inodes && i < NUM_DIRECT && inodes[ino].addrs[i] == 0
    ensures var inodes' := inodes[ino := inodes[ino].(addrs := inodes[ino].addrs[i := b])];
      var blocks' := blocks[b := Zero()];
      && Core(inodes', blocks', Bitmap.Put(bm, size, b, true), owner[b := Slot(ino, i)], dataStart, size)
      && Preserves(inodes, blocks, inodes', blocks') && RefAt(inodes'[ino], blocks', i) == b
  {
    hide LinksOk, BitsOk, Relinked, Preserves, Word;
    var inodes', blocks' := inodes[ino := inodes[ino].(addrs := inodes[ino].addrs[i := b])], blocks[b := Zero()];
    NotIndirect(inodes, blocks, bm, owner, dataStart, size, b, Zero());
    RelinkDirect(inodes, blocks, blocks', ino, i, b);
    assert At(inodes, blocks, Slot(ino, i)) == 0;
    InodeBlocks.Linked(inodes, blocks, bm, owner, dataStart, size, inodes', blocks', Slot(ino, i), b);
    OwnedKept(inodes, blocks, bm, owner, dataStart, size, b);
    LinkPreserves(inodes, blocks, bm, owner, dataStart, size, inodes', blocks', Slot(ino, i), b);
  }

  lemma OwnedKept(inodes: map<nat, Inode>, blocks: map<nat, Block>, bm: seq<Bitmap.Bits>, owner: map<nat, Slot>,
                  dataStart: nat, size: nat, b: nat)
    requires Core(inodes, blocks, bm, owner, dataStart, size) && b !in owner
    ensures forall r: nat {:trigger r in owner} :: r in owner ==> r in blocks && blocks[b := Zero()][r] == blocks[r]
  {
    hide At, BitsOk;
  }

  lemma IndirectLinked(inodes: map<nat, Inode>, blocks: map<nat, Block>, bm: seq<Bitmap.Bits>, owner: map<nat, Slot>,
                       dataStart: nat, size: nat, ino: nat, b: nat)
    requires Core(inodes, blocks, bm, owner, dataStart, size) && b < size && !Bitmap.Bit(bm, size, b) && b !in owner
    requires b >= dataStart
    requires ino in inodes && inodes[ino].addrs[NUM_DIRECT] == 0
    ensures var inodes' := inodes[ino := inodes[ino].(addrs := inodes[ino].addrs[NUM_DIRECT := b])];
      var blocks' := blocks[b := Zero()];
      && Core(inodes', blocks', Bitmap.Put(bm, size, b, true), owner[b := Slot(ino, INDIRECT)], dataStart, size)
      && Preserves(inodes, blocks, inodes', blocks') && RefAt(inodes'[ino], blocks', INDIRECT) == b
      && forall k: nat {:trigger RefAt(inodes'[ino], blocks', k)} :: NUM_DIRECT <= k < INDIRECT ==>
           RefAt(inodes'[ino], blocks', k) == RefAt(inodes[ino], blocks, k)
  {
    hide LinksOk, BitsOk, Preserves, Word;
    var inodes' := inodes[ino := inodes[ino].(addrs := inodes[ino].addrs[NUM_DIRECT := b])];
    var blocks' := blocks[b := Zero()];
    NotIndirect(inodes, blocks, bm, owner, dataStart, size, b, Zero());
    RelinkIndirect(inodes, blocks, blocks', ino, b);
    forall k: nat {:trigger RefAt(inodes'[ino], blocks', k)} | NUM_DIRECT <= k < INDIRECT
      ensures RefAt(inodes'[ino], blocks', k) == RefAt(inodes[ino], blocks, k)
    {
      assert At(inodes', blocks', Slot(ino, k)) == At(inodes, blocks, Slot(ino, k));
    }
    hide Relinked;
    assert At(inodes, blocks, Slot(ino, INDIRECT)) == 0;
    InodeBlocks.Linked(inodes, blocks, bm, owner, dataStart, size, inodes', blocks', Slot(ino, INDIRECT), b);
    OwnedKept(inodes, blocks, bm, owner, dataStart, size, b);
    LinkPreserves(inodes, blocks, bm, owner, dataStart, size, inodes', blocks', Slot(ino, INDIRECT), b);
  }

  lemma BlockThere(inodes: map<nat, Inode>, blocks: map<nat, Block>, bm: seq<Bitmap.Bits>, owner: map<nat, Slot>,
                   dataStart: nat, size: nat, s: Slot)
    requires Core(inodes, blocks, bm, owner, dataStart, size) && At(inodes, blocks, s) != 0
    ensures var r := At(inodes, blocks, s);
      r in blocks && |blocks[r]| == BLOCK_SIZE && r in owner && owner[r] == s && r < size
  {
    hide At, BitsOk;
  }

  lemma InsideLinked(inodes: map<nat, Inode>, blocks: map<nat, Block>, bm: seq<Bitmap.Bits>, owner: map<nat, Slot>,
                     dataStart: nat, size: nat, ino: nat, i: nat, b: nat)
    requires Core(inodes, blocks, bm, owner, dataStart, size) && b < size && !Bitmap.Bit(bm, size, b) && b !in owner
    requires b >= dataStart
    requires ino in inodes && i < NUM_INDIRECT && RefAt(inodes[ino], blocks, INDIRECT) != 0
    requires RefAt(inodes[ino], blocks, NUM_DIRECT + i) == 0
    ensures var ind := RefAt(inodes[ino], blocks, INDIRECT);
      && ind in blocks && |blocks[ind]| == BLOCK_SIZE
      && var blocks' := blocks[b := Zero()][ind := SetWord(blocks[ind], i, b)];
      && Core(inodes, blocks', Bitmap.Put(bm, size, b, true), owner[b := Slot(ino, NUM_DIRECT + i)], dataStart, size)
      && Preserves(inodes, blocks, inodes, blocks') && RefAt(inodes[ino], blocks', NUM_DIRECT + i) == b
  {
    hide LinksOk, BitsOk, Preserves, Word, SetWord;
    var ind := RefAt(inodes[ino], blocks, INDIRECT);
    var s := Slot(ino, NUM_DIRECT + i);
    BlockThere(inodes, blocks, bm, owner, dataStart, size, Slot(ino, INDIRECT));
    NotIndirect(inodes, blocks, bm, owner, dataStart, size, b, Zero());
    var blocks1 := blocks[b := Zero()];
    RelinkInside(inodes, blocks, bm, owner, dataStart, size, blocks1, ino, i, b);
    var blocks' := blocks1[ind := SetWord(blocks[ind], i, b)];
    assert At(inodes, blocks', s) == b;
    hide Relinked;
    assert At(inodes, blocks, s) == 0;
    InodeBlocks.Linked(inodes, blocks, bm, owner, dataStart, size, inodes, blocks', s, b);
    OwnedKept(inodes, blocks, bm, owner, dataStart, size, b);
    LinkPreserves(inodes, blocks, bm, owner, dataStart, size, inodes, blocks', s, b);
  }

  /** The files after a change that concerned one inode. */
  lemma FilesAfter(inodes: map<nat, Inode>, blocks: map<nat, Block>, inodes': map<nat, Inode>, blocks': map<nat, Block>,
                   ino: nat, text: seq<byte>)
    requires AllBacked(inodes, blocks) && inodes'.Keys == inodes.Keys && ino in inodes
    requires OthersKept(inodes, blocks, inodes', blocks', ino)
    requires Backed(inodes'[ino], blocks', inodes'[ino].size) && Text(inodes'[ino], blocks', inodes'[ino].size) == text
    ensures AllBacked(inodes', blocks') && Texts(inodes', blocks') == Texts(inodes, blocks)[ino := text]
  {
    hide Backed, Text;
    forall j {:trigger j in inodes'} | j in inodes' && j != ino
      ensures Backed(inodes'[j], blocks', inodes'[j].size)
      ensures Text(inodes'[j], blocks', inodes'[j].size) == Text(inodes[j], blocks, inodes[j].size)
    {
      assert j in inodes;
    }
  }

  /** The size of an inode says nothing about its references. */
  lemma Resized(inodes: map<nat, Inode>, blocks: map<nat, Block>, bm: seq<Bitmap.Bits>, owner: map<nat, Slot>,
                dataStart: nat, size: nat, ino: nat, len: nat)
    requires Core(inodes, blocks, bm, owner, dataStart, size) && ino in inodes && len <= MAX_FILE * BLOCK_SIZE
    ensures var inodes' := inodes[ino := inodes[ino].(size := len)];
      && Core(inodes', blocks, bm, owner, dataStart, size) && OthersKept(inodes, blocks, inodes', blocks, ino)
      && (Backed(inodes[ino], blocks, len) ==> Backed(inodes'[ino], blocks, len))
      && Text(inodes'[ino], blocks, len) == Text(inodes[ino], blocks, len)
  {
    hide BitsOk, Word;
    var inodes' := inodes[ino := inodes[ino].(size := len)];
    forall k: nat ensures RefAt(inodes'[ino], blocks, k) == RefAt(inodes[ino], blocks, k) {}
    forall s: Slot ensures At(inodes', blocks, s) == At(inodes, blocks, s) {}
    hide RefAt, At;
    assert LinksOk(inodes', blocks, owner, dataStart, size);
    assert InodesOk(inodes');
  }

  /** Overwriting a data block changes no reference. */
  lemma PatchKeeps(inodes: map<nat, Inode>, blocks: map<nat, Block>, bm: seq<Bitmap.Bits>, owner: map<nat, Slot>,
                   dataStart: nat, size: nat, s: Slot, x: Block)
    requires Core(inodes, blocks, bm, owner, dataStart, size) && At(inodes, blocks, s) != 0 && s.k < MAX_FILE
    requires |x| == BLOCK_SIZE
    ensures var blocks' := blocks[At(inodes, blocks, s) := x];
      && Core(inodes, blocks', bm, owner, dataStart, size)
      && forall t: Slot {:trigger At(inodes, blocks', t)} {:trigger At(inodes, blocks, t)} ::
           At(inodes, blocks', t) == At(inodes, blocks, t)
  {
    hide BitsOk, At;
    var b := At(inodes, blocks, s);
    BlockThere(inodes, blocks, bm, owner, dataStart, size, s);
    NotIndirect(inodes, blocks, bm, owner, dataStart, size, b, x);
    var blocks' := blocks[b := x];
    forall t: Slot ensures At(inodes, blocks', t) == At(inodes, blocks, t) { SameRefs(inodes, blocks, blocks', t); }
    assert BlocksOk(blocks', size);
    assert LinksOk(inodes, blocks', owner, dataStart, size);
  }

  lemma Stored(inodes: map<nat, Inode>, blocks: map<nat, Block>, bm: seq<Bitmap.Bits>, owner: map<nat, Slot>,
               dataStart: nat, size: nat, ino: nat, off: nat, s: seq<byte>, len: nat)
    requires Core(inodes, blocks, bm, owner, dataStart, size) && ino in inodes && off <= len <= MAX_FILE * BLOCK_SIZE
    requires Backed(inodes[ino], blocks, len)
    requires 0 < |s| && off % BLOCK_SIZE + |s| <= BLOCK_SIZE && off + |s| <= MAX_FILE * BLOCK_SIZE
    requires RefAt(inodes[ino], blocks, off / BLOCK_SIZE) != 0
    ensures var bn := RefAt(inodes[ino], blocks, off / BLOCK_SIZE);
      && bn in blocks && |blocks[bn]| == BLOCK_SIZE
      && var blocks' := blocks[bn := Patched(blocks[bn], off % BLOCK_SIZE, s)];
      && Core(inodes, blocks', bm, owner, dataStart, size) && OthersKept(inodes, blocks, inodes, blocks', ino)
      && Backed(inodes[ino], blocks', Max(len, off + |s|))
      && Text(inodes[ino], blocks', Max(len, off + |s|)) == Spliced(Text(inodes[ino], blocks, len), off, s)
  {
    hide RefAt, Patched, Spliced, BlocksOk, BitsOk, Text, Backed;
    var q := off / BLOCK_SIZE;
    assert q < MAX_FILE;
    var bn := RefAt(inodes[ino], blocks, q);
    assert At(inodes, blocks, Slot(ino, q)) == bn;
    BlockThere(inodes, blocks, bm, owner, dataStart, size, Slot(ino, q));
    var x := Patched(blocks[bn], off % BLOCK_SIZE, s);
    PatchKeeps(inodes, blocks, bm, owner, dataStart, size, Slot(ino, q), x);
    var blocks' := blocks[bn := x];
    forall k: nat {:trigger RefAt(inodes[ino], blocks, k)} {:trigger RefAt(inodes[ino], blocks', k)} | k < MAX_FILE
      ensures RefAt(inodes[ino], blocks', k) == RefAt(inodes[ino], blocks, k)
      ensures (RefAt(inodes[ino], blocks, k) == bn ==> k == q)
    {
      SameAt(inodes, blocks, bm, owner, dataStart, size, blocks', Slot(ino, q), Slot(ino, k));
    }
    ChunkWritten(inodes[ino], blocks, blocks', len, off, s);
    forall j {:trigger j in inodes} | j in inodes && j != ino && Backed(inodes[j], blocks, inodes[j].size)
      ensures Backed(inodes[j], blocks', inodes[j].size)
      ensures Text(inodes[j], blocks', inodes[j].size) == Text(inodes[j], blocks, inodes[j].size)
    {
      OtherText(inodes, blocks, bm, owner, dataStart, size, Slot(ino, q), x, j);
    }
  }

  lemma SameAt(inodes: map<nat, Inode>, blocks: map<nat, Block>, bm: seq<Bitmap.Bits>, owner: map<nat, Slot>,
               dataStart: nat, size: nat, blocks': map<nat, Block>, s: Slot, t: Slot)
    requires Core(inodes, blocks, bm, owner, dataStart, size) && At(inodes, blocks, s) != 0
    requires At(inodes, blocks', t) == At(inodes, blocks, t) && t.ino in inodes
    ensures RefAt(inodes[t.ino], blocks', t.k) == RefAt(inodes[t.ino], blocks, t.k)
    ensures (RefAt(inodes[t.ino], blocks, t.k) == At(inodes, blocks, s) ==> s == t)
  {
    hide RefAt;
    if At(inodes, blocks, s) == At(inodes, blocks, t) {
      SlotsExclusive(inodes, blocks, bm, owner, dataStart, size, s, t);
    }
  }

  /** A block belongs to one inode only, so the references and bytes of the others stay. */
  lemma OtherText(inodes: map<nat, Inode>, blocks: map<nat, Block>, bm: seq<Bitmap.Bits>, owner: map<nat, Slot>,
                  dataStart: nat, size: nat, s: Slot, x: Block, j: nat)
    requires Core(inodes, blocks, bm, owner, dataStart, size) && At(inodes, blocks, s) != 0 && |x| == BLOCK_SIZE
    requires j in inodes && j != s.ino && Backed(inodes[j], blocks, inodes[j].size)
    ensures var blocks' := blocks[At(inodes, blocks, s) := x];
      Backed(inodes[j], blocks', inodes[j].size) &&
      Text(inodes[j], blocks', inodes[j].size) == Text(inodes[j], blocks, inodes[j].size)
  {
    hide RefAt, BlocksOk, BitsOk;
    var blocks', len := blocks[At(inodes, blocks, s) := x], inodes[j].size;
    forall k: nat {:trigger RefAt(inodes[j], blocks', k)}
      ensures RefAt(inodes[j], blocks', k) == RefAt(inodes[j], blocks, k)
      ensures RefAt(inodes[j], blocks, k) != At(inodes, blocks, s)
    {
      OtherRefs(inodes, blocks, bm, owner, dataStart, size, s, x, j, k);
    }
    forall i: nat | i < len ensures ByteAt(inodes[j], blocks', i) == ByteAt(inodes[j], blocks, i) {
      assert RefAt(inodes[j], blocks', i / BLOCK_SIZE) == RefAt(inodes[j], blocks, i / BLOCK_SIZE);
    }
  }

  lemma OtherRefs(inodes: map<nat, Inode>, blocks: map<nat, Block>, bm: seq<Bitmap.Bits>, owner: map<nat, Slot>,
                  dataStart: nat, size: nat, s: Slot, x: Block, j: nat, k: nat)
    requires Core(inodes, blocks, bm, owner, dataStart, size) && At(inodes, blocks, s) != 0 && |x| == BLOCK_SIZE
    requires j in inodes && j != s.ino
    ensures RefAt(inodes[j], blocks[At(inodes, blocks, s) := x], k) == RefAt(inodes[j], blocks, k)
    ensures RefAt(inodes[j], blocks, k) != At(inodes, blocks, s)
  {
    hide BlocksOk, BitsOk, Word, LinksOk;
    var b := At(inodes, blocks, s);
    if At(inodes, blocks, Slot(j, k)) == b {
      SlotsExclusive(inodes, blocks, bm, owner, dataStart, size, s, Slot(j, k));
    }
    if At(inodes, blocks, Slot(j, INDIRECT)) == b {
      SlotsExclusive(inodes, blocks, bm, owner, dataStart, size, s, Slot(j, INDIRECT));
    }
    assert At(inodes, blocks, Slot(j, k)) == RefAt(inodes[j], blocks, k);
    assert At(inodes, blocks, Slot(j, INDIRECT)) == inodes[j].addrs[NUM_DIRECT];
  }

  /** A stretch of one block is a stretch of the text. */
  lemma ChunkRead(n: Inode, blocks: map<nat, Block>, len: nat, at: nat, m: nat)
    requires at + m <= len && at % BLOCK_SIZE + m <= BLOCK_SIZE
    requires var r := RefAt(n, blocks, at / BLOCK_SIZE); r in blocks && |blocks[r]| == BLOCK_SIZE
    ensures blocks[RefAt(n, blocks, at / BLOCK_SIZE)][at % BLOCK_SIZE..at % BLOCK_SIZE + m] ==
      Text(n, blocks, len)[at..at + m]
  {
    hide RefAt;
    var r := RefAt(n, blocks, at / BLOCK_SIZE);
    var u, t := blocks[r][at % BLOCK_SIZE..at % BLOCK_SIZE + m], Text(n, blocks, len)[at..at + m];
    forall i: nat | i < m ensures u[i] == t[i] {
      SameBlock(at, at + i);
      assert t[i] == ByteAt(n, blocks, at + i);
    }
  }

  lemma ReadStep(inodes: map<nat, Inode>, blocks: map<nat, Block>, bm: seq<Bitmap.Bits>, owner: map<nat, Slot>,
                 dataStart: nat, size: nat, ino: nat, off: nat, tot: nat, m: nat)
    requires Core(inodes, blocks, bm, owner, dataStart, size) && ino in inodes
    requires Backed(inodes[ino], blocks, inodes[ino].size)
    requires off + tot + m <= inodes[ino].size && (off + tot) % BLOCK_SIZE + m <= BLOCK_SIZE && 0 < m
    ensures var r := RefAt(inodes[ino], blocks, (off + tot) / BLOCK_SIZE);
      var text := Text(inodes[ino], blocks, inodes[ino].size); var from := (off + tot) % BLOCK_SIZE;
      && (off + tot) / BLOCK_SIZE < MAX_FILE && r != 0 && r in blocks && |blocks[r]| == BLOCK_SIZE
      && text[off..off + tot] + blocks[r][from..from + m] == text[off..off + tot + m]
  {
    hide RefAt, Text, LinksOk, BitsOk;
    var k := (off + tot) / BLOCK_SIZE;
    assert inodes[ino].size <= MAX_FILE * BLOCK_SIZE;
    assert k < MAX_FILE && k * BLOCK_SIZE < inodes[ino].size;
    assert At(inodes, blocks, Slot(ino, k)) == RefAt(inodes[ino], blocks, k);
    BlockThere(inodes, blocks, bm, owner, dataStart, size, Slot(ino, k));
    ChunkRead(inodes[ino], blocks, inodes[ino].size, off + tot, m);
  }

  // ----- truncation -----

  /** `owner` is `owner0` without the slots of `ino` below `n`. */
  ghost predicate Dropped(owner0: map<nat, Slot>, owner: map<nat, Slot>, ino: nat, n: nat) {
    forall b: nat {:trigger b in owner} {:trigger b in owner0} ::
      (b in owner <==> b in owner0 && !(owner0[b].ino == ino && owner0[b].k < n)) &&
      (b in owner ==> owner[b] == owner0[b])
  }

  lemma DroppedOne(owner0: map<nat, Slot>, owner: map<nat, Slot>, ino: nat, n: nat, inodes: map<nat, Inode>,
                   blocks: map<nat, Block>, bm: seq<Bitmap.Bits>, dataStart: nat, size: nat)
    requires Dropped(owner0, owner, ino, n) && Core(inodes, blocks, bm, owner, dataStart, size)
    ensures var b := At(inodes, blocks, Slot(ino, n));
      Dropped(owner0, if b == 0 then owner else owner - {b}, ino, n + 1)
  {
    hide At, BlocksOk, BitsOk, InodesOk;
  }

  lemma DroppedRest(owner0: map<nat, Slot>, owner: map<nat, Slot>, ino: nat, inodes: map<nat, Inode>,
                    blocks: map<nat, Block>, bm: seq<Bitmap.Bits>, dataStart: nat, size: nat)
    requires Dropped(owner0, owner, ino, NUM_DIRECT) && Core(inodes, blocks, bm, owner, dataStart, size)
    requires ino in inodes
    ensures |inodes[ino].addrs| == NUM_DIRECT + 1
    ensures inodes[ino].addrs[NUM_DIRECT] == 0 ==> Dropped(owner0, owner, ino, INDIRECT + 1)
    ensures inodes[ino].addrs[NUM_DIRECT] == RefAt(inodes[ino], blocks, INDIRECT)
  {
    hide BlocksOk, BitsOk, Word;
  }

  /** What truncation has done in all. */
  lemma Truncated(inodes: map<nat, Inode>, blocks: map<nat, Block>, bm: seq<Bitmap.Bits>, owner: map<nat, Slot>,
                  dataStart: nat, size: nat, ino: nat,
                  inodes': map<nat, Inode>, blocks': map<nat, Block>, bm': seq<Bitmap.Bits>, owner': map<nat, Slot>)
    requires Core(inodes, blocks, bm, owner, dataStart, size) && AllBacked(inodes, blocks) && ino in inodes
    requires Core(inodes', blocks', bm', owner', dataStart, size) && Dropped(owner, owner', ino, INDIRECT + 1)
    requires ino in inodes' && inodes' == inodes[ino := inodes'[ino]] && inodes'[ino].size == 0
    requires var ind := RefAt(inodes[ino], blocks, INDIRECT);
      blocks' == blocks || (ind != 0 && ind in blocks' && |blocks'[ind]| == BLOCK_SIZE &&
        blocks' == blocks[ind := blocks'[ind]])
    ensures AllBacked(inodes', blocks') && Texts(inodes', blocks') == Texts(inodes, blocks)[ino := []]
    ensures forall b: nat {:trigger b in owner'} :: b in owner' <==> b in owner && owner[b].ino != ino
    ensures Bitmap.Fits(bm, size) && Bitmap.Fits(bm', size)
    ensures forall b: nat {:trigger Bitmap.Bit(bm', size, b)} :: b < size ==>
      (Bitmap.Bit(bm', size, b) <==> Bitmap.Bit(bm, size, b) && !(b in owner && owner[b].ino == ino))
  {
    TruncatedOwners(inodes, blocks, bm, owner, dataStart, size, ino, owner');
    TruncatedOthers(inodes, blocks, bm, owner, dataStart, size, ino, inodes', blocks');
    hide BlocksOk, LinksOk, InodesOk, RefAt, OthersKept, AllBacked, Texts, Dropped;
    FilesAfter(inodes, blocks, inodes', blocks', ino, []);
  }

  lemma TruncatedOwners(inodes: map<nat, Inode>, blocks: map<nat, Block>, bm: seq<Bitmap.Bits>, owner: map<nat, Slot>,
                        dataStart: nat, size: nat, ino: nat, owner': map<nat, Slot>)
    requires Core(inodes, blocks, bm, owner, dataStart, size) && Dropped(owner, owner', ino, INDIRECT + 1)
    ensures forall b: nat {:trigger b in owner'} {:trigger b in owner} ::
      b in owner' <==> b in owner && owner[b].ino != ino
  {
    hide BlocksOk, BitsOk, Word;
    forall b: nat {:trigger b in owner} | b in owner
      ensures owner[b].k <= INDIRECT
    {
      assert At(inodes, blocks, owner[b]) == b;
    }
  }

  lemma TruncatedOthers(inodes: map<nat, Inode>, blocks: map<nat, Block>, bm: seq<Bitmap.Bits>, owner: map<nat, Slot>,
                        dataStart: nat, size: nat, ino: nat,
                        inodes': map<nat, Inode>, blocks': map<nat, Block>)
    requires Core(inodes, blocks, bm, owner, dataStart, size) && ino in inodes && ino in inodes'
    requires inodes' == inodes[ino := inodes'[ino]] && inodes'[ino].size == 0
    requires var ind := RefAt(inodes[ino], blocks, INDIRECT);
      blocks' == blocks || (ind != 0 && ind in blocks' && |blocks'[ind]| == BLOCK_SIZE &&
        blocks' == blocks[ind := blocks'[ind]])
    ensures OthersKept(inodes, blocks, inodes', blocks', ino) && Backed(inodes'[ino], blocks', 0)
    ensures Text(inodes'[ino], blocks', 0) == []
  {
    hide Core, RefAt, Text, Backed;
    var s := Slot(ino, INDIRECT);
    assert At(inodes, blocks, s) == RefAt(inodes[ino], blocks, INDIRECT);
    forall j {:trigger j in inodes'} | j in inodes' && j != ino && Backed(inodes[j], blocks, inodes[j].size)
      ensures Backed(inodes'[j], blocks', inodes[j].size)
      ensures Text(inodes'[j], blocks', inodes[j].size) == Text(inodes[j], blocks, inodes[j].size)
    {
      if blocks' != blocks {
        OtherText(inodes, blocks, bm, owner, dataStart, size, s, blocks'[RefAt(inodes[ino], blocks, INDIRECT)], j);
      }
    }
    NothingBacked(inodes'[ino], blocks');
  }

  lemma NothingBacked(n: Inode, blocks: map<nat, Block>)
    ensures Backed(n, blocks, 0) && Text(n, blocks, 0) == []
  {
  }

  lemma DirectUnlinked(inodes: map<nat, Inode>, blocks: map<nat, Block>, bm: seq<Bitmap.Bits>, owner: map<nat, Slot>,
                       dataStart: nat, size: nat, ino: nat, i: nat)
    requires Core(inodes, blocks, bm, owner, dataStart, size) && ino in inodes && i < NUM_DIRECT
    requires inodes[ino].addrs[i] != 0
    ensures var b := inodes[ino].addrs[i];
      && b == At(inodes, blocks, Slot(ino, i)) && b < size && Bitmap.Fits(bm, size) && Bitmap.Bit(bm, size, b)
      && Core(inodes[ino := inodes[ino].(addrs := inodes[ino].addrs[i := 0])], blocks,
              Bitmap.Put(bm, size, b, false), owner - {b}, dataStart, size)
  {
    hide LinksOk, BitsOk, Relinked, Word;
    AllSame(inodes, blocks, bm, owner, dataStart, size);
    RelinkDirect(inodes, blocks, blocks, ino, i, 0);
    assert At(inodes, blocks, Slot(ino, i)) == inodes[ino].addrs[i];
    Unlinked(inodes, blocks, bm, owner, dataStart, size,
             inodes[ino := inodes[ino].(addrs := inodes[ino].addrs[i := 0])], blocks, Slot(ino, i));
  }

  lemma AllSame(inodes: map<nat, Inode>, blocks: map<nat, Block>, bm: seq<Bitmap.Bits>, owner: map<nat, Slot>,
                dataStart: nat, size: nat)
    requires Core(inodes, blocks, bm, owner, dataStart, size)
    ensures SameIndirect(inodes, blocks, blocks)
  {
    hide BitsOk, Word;
    forall j {:trigger j in inodes} | j in inodes && inodes[j].addrs[NUM_DIRECT] != 0
      ensures inodes[j].addrs[NUM_DIRECT] in blocks
    {
      assert At(inodes, blocks, Slot(j, INDIRECT)) == inodes[j].addrs[NUM_DIRECT];
    }
  }

  lemma InsideUnlinked(inodes: map<nat, Inode>, blocks: map<nat, Block>, bm: seq<Bitmap.Bits>, owner: map<nat, Slot>,
                       dataStart: nat, size: nat, ino: nat, i: nat)
    requires Core(inodes, blocks, bm, owner, dataStart, size) && ino in inodes && i < NUM_INDIRECT
    requires RefAt(inodes[ino], blocks, INDIRECT) != 0
    ensures var ind := RefAt(inodes[ino], blocks, INDIRECT);
      && ind in blocks && |blocks[ind]| == BLOCK_SIZE && ind in owner && owner[ind] == Slot(ino, INDIRECT) && ind < size
      && var b := Word(blocks[ind], i); var blocks' := blocks[ind := SetWord(blocks[ind], i, 0)];
      && b == At(inodes, blocks, Slot(ino, NUM_DIRECT + i))
      && (b != 0 ==>
           b < size && Bitmap.Fits(bm, size) && Bitmap.Bit(bm, size, b) &&
           Core(inodes, blocks', Bitmap.Put(bm, size, b, false), owner - {b}, dataStart, size))
      && (b == 0 ==> blocks' == blocks)
      && forall k: nat {:trigger RefAt(inodes[ino], blocks', k)} ::
           k <= INDIRECT ==>
             RefAt(inodes[ino], blocks', k) == if k == NUM_DIRECT + i then 0 else RefAt(inodes[ino], blocks, k)
  {
    hide LinksOk, BitsOk, BlocksOk;
    var ind, s := RefAt(inodes[ino], blocks, INDIRECT), Slot(ino, NUM_DIRECT + i);
    BlockThere(inodes, blocks, bm, owner, dataStart, size, Slot(ino, INDIRECT));
    AllSame(inodes, blocks, bm, owner, dataStart, size);
    RelinkInside(inodes, blocks, bm, owner, dataStart, size, blocks, ino, i, 0);
    var b, blocks' := Word(blocks[ind], i), blocks[ind := SetWord(blocks[ind], i, 0)];
    assert b == At(inodes, blocks, s);
    if b == 0 { ZeroAgain(blocks[ind], i); }
    forall k: nat {:trigger RefAt(inodes[ino], blocks', k)} | k <= INDIRECT
      ensures RefAt(inodes[ino], blocks', k) == if k == NUM_DIRECT + i then 0 else RefAt(inodes[ino], blocks, k)
    {
      assert At(inodes, blocks', Slot(ino, k)) == RefAt(inodes[ino], blocks', k);
      assert At(inodes, blocks, Slot(ino, k)) == RefAt(inodes[ino], blocks, k);
    }
    hide Relinked, Word, SetWord, RefAt;
    if b != 0 {
      StillBlocks(blocks, size, ind, SetWord(blocks[ind], i, 0), inodes, bm, owner, dataStart);
      Unlinked(inodes, blocks, bm, owner, dataStart, size, inodes, blocks', s);
    }
  }

  lemma StillBlocks(blocks: map<nat, Block>, size: nat, b: nat, x: Block, inodes: map<nat, Inode>, bm: seq<Bitmap.Bits>,
                    owner: map<nat, Slot>, dataStart: nat)
    requires Core(inodes, blocks, bm, owner, dataStart, size) && b in blocks && |x| == BLOCK_SIZE
    ensures BlocksOk(blocks[b := x], size)
  {
  }

  lemma ZeroAgain(b: Block, i: nat)
    requires |b| == BLOCK_SIZE && i < NUM_INDIRECT && Word(b, i) == 0
    ensures SetWord(b, i, 0) == b
  {
    assert Digit(0, 1) == 0 && Digit(0, 0x100) == 0 && Digit(0, 0x1_0000) == 0 && Digit(0, 0x100_0000) == 0;
  }

  lemma IndirectUnlinked(inodes: map<nat, Inode>, blocks: map<nat, Block>, bm: seq<Bitmap.Bits>, owner: map<nat, Slot>,
                         dataStart: nat, size: nat, ino: nat)
    requires Core(inodes, blocks, bm, owner, dataStart, size) && ino in inodes
    requires RefAt(inodes[ino], blocks, INDIRECT) != 0
    requires forall k: nat {:trigger RefAt(inodes[ino], blocks, k)} ::
      NUM_DIRECT <= k < INDIRECT ==> RefAt(inodes[ino], blocks, k) == 0
    ensures var b := RefAt(inodes[ino], blocks, INDIRECT);
      && b == At(inodes, blocks, Slot(ino, INDIRECT)) && b < size && Bitmap.Fits(bm, size) && Bitmap.Bit(bm, size, b)
      && Core(inodes[ino := inodes[ino].(addrs := inodes[ino].addrs[NUM_DIRECT := 0])], blocks,
              Bitmap.Put(bm, size, b, false), owner - {b}, dataStart, size)
  {
    hide LinksOk, BitsOk, Relinked, Word;
    AllSame(inodes, blocks, bm, owner, dataStart, size);
    RelinkIndirect(inodes, blocks, blocks, ino, 0);
    Unlinked(inodes, blocks, bm, owner, dataStart, size,
             inodes[ino := inodes[ino].(addrs := inodes[ino].addrs[NUM_DIRECT := 0])], blocks, Slot(ino, INDIRECT));
  }
}
