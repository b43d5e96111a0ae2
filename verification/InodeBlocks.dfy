/** Which disk blocks an inode refers to, who owns them, and how they are linked and unlinked. */
module InodeBlocks {
  import opened Common
  import opened Blocks
  import Bitmap

  const NUM_DIRECT: nat := 12
  const NUM_INDIRECT: nat := 256
  const MAX_FILE: nat := 268

  /** The slot that stands for the indirect block itself. */
  const INDIRECT: nat := 268

  /** `addrs` has 12 direct block numbers and one indirect; 0 is none. */
  datatype Inode = Inode(addrs: seq<nat>, size: nat)

  /** A place that can refer to a block: data block `k` of an inode, or its indirect block. */
  datatype Slot = Slot(ino: nat, k: nat)

  // ----- references and owners -----

  /** The block slot `k` of an inode refers to, or 0. */
  function RefAt(n: Inode, blocks: map<nat, Block>, k: nat): nat {
    if |n.addrs| != NUM_DIRECT + 1 || k > INDIRECT then 0
    else if k < NUM_DIRECT then n.addrs[k]
    else if k == INDIRECT then n.addrs[NUM_DIRECT]
    else
      var ind := n.addrs[NUM_DIRECT];
      if ind != 0 && ind in blocks && |blocks[ind]| == BLOCK_SIZE then Word(blocks[ind], k - NUM_DIRECT) else 0
  }

  ghost function At(inodes: map<nat, Inode>, blocks: map<nat, Block>, s: Slot): nat {
    if s.ino in inodes then RefAt(inodes[s.ino], blocks, s.k) else 0
  }

  ghost predicate BlocksOk(blocks: map<nat, Block>, size: nat) {
    forall b: nat {:trigger b in blocks} :: (b in blocks <==> b < size) && (b in blocks ==> |blocks[b]| == BLOCK_SIZE)
  }

  ghost predicate InodesOk(inodes: map<nat, Inode>) {
    forall j {:trigger j in inodes} :: j in inodes ==>
      |inodes[j].addrs| == NUM_DIRECT + 1 && inodes[j].size <= MAX_FILE * BLOCK_SIZE
  }

  /** `owner` names, for every data block in use, the one slot that refers to it. */
  ghost predicate LinksOk(inodes: map<nat, Inode>, blocks: map<nat, Block>, owner: map<nat, Slot>, dataStart: nat,
                          size: nat) {
    && (forall s: Slot {:trigger At(inodes, blocks, s)} :: At(inodes, blocks, s) != 0 ==>
          At(inodes, blocks, s) in owner && owner[At(inodes, blocks, s)] == s)
    && (forall b: nat {:trigger b in owner} :: b in owner ==>
         dataStart <= b < size && At(inodes, blocks, owner[b]) == b)
  }

  /** A block is marked allocated exactly when it is metadata or owned. */
  ghost predicate BitsOk(bm: seq<Bitmap.Bits>, owner: map<nat, Slot>, dataStart: nat, size: nat) {
    Bitmap.Fits(bm, size) &&
    forall b: nat {:trigger Bitmap.Bit(bm, size, b)} :: b < size ==>
      (Bitmap.Bit(bm, size, b) <==> b < dataStart || b in owner)
  }

  ghost predicate Core(inodes: map<nat, Inode>, blocks: map<nat, Block>, bm: seq<Bitmap.Bits>, owner: map<nat, Slot>,
                       dataStart: nat, size: nat) {
    && 0 < dataStart <= size < 0x1_0000_0000
    && BlocksOk(blocks, size) && InodesOk(inodes) && LinksOk(inodes, blocks, owner, dataStart, size)
    && BitsOk(bm, owner, dataStart, size)
  }

  /** Slot `s` now refers to `v`; every other slot is as before. */
  ghost predicate Relinked(inodes: map<nat, Inode>, blocks: map<nat, Block>, inodes': map<nat, Inode>,
                           blocks': map<nat, Block>, s: Slot, v: nat) {
    forall t: Slot {:trigger At(inodes', blocks', t)} {:trigger At(inodes, blocks, t)} ::
      At(inodes', blocks', t) == if t == s then v else At(inodes, blocks, t)
  }

  /** Two slots never share a block. */
  lemma SlotsExclusive(inodes: map<nat, Inode>, blocks: map<nat, Block>, bm: seq<Bitmap.Bits>, owner: map<nat, Slot>,
                       dataStart: nat, size: nat, s: Slot, t: Slot)
    requires Core(inodes, blocks, bm, owner, dataStart, size) && At(inodes, blocks, s) == At(inodes, blocks, t) != 0
    ensures s == t && dataStart <= At(inodes, blocks, s) < size && Bitmap.Bit(bm, size, At(inodes, blocks, s))
  {
    hide BlocksOk, At;
    assert At(inodes, blocks, s) in owner;
  }

  lemma Linked(inodes: map<nat, Inode>, blocks: map<nat, Block>, bm: seq<Bitmap.Bits>, owner: map<nat, Slot>,
               dataStart: nat, size: nat,
               inodes': map<nat, Inode>, blocks': map<nat, Block>, s: Slot, b: nat)
    requires Core(inodes, blocks, bm, owner, dataStart, size) && b < size && !Bitmap.Bit(bm, size, b)
    requires At(inodes, blocks, s) == 0
    requires BlocksOk(blocks', size) && InodesOk(inodes') && Relinked(inodes, blocks, inodes', blocks', s, b)
    ensures Core(inodes', blocks', Bitmap.Put(bm, size, b, true), owner[b := s], dataStart, size)
  {
    hide BlocksOk, InodesOk, At, Bitmap.Bit, Bitmap.Put;
    assert b >= dataStart && b !in owner;
    BitsLinked(bm, owner, dataStart, size, b, s);
    assert LinksOk(inodes', blocks', owner[b := s], dataStart, size);
  }

  lemma BitsLinked(bm: seq<Bitmap.Bits>, owner: map<nat, Slot>, dataStart: nat, size: nat, b: nat, s: Slot)
    requires BitsOk(bm, owner, dataStart, size) && dataStart <= b < size
    ensures BitsOk(Bitmap.Put(bm, size, b, true), owner[b := s], dataStart, size)
    ensures BitsOk(Bitmap.Put(bm, size, b, false), owner - {b}, dataStart, size)
  {
    hide Bitmap.Bit, Bitmap.Put;
    forall c: nat | c < size
      ensures Bitmap.Bit(Bitmap.Put(bm, size, b, true), size, c) == (c == b || Bitmap.Bit(bm, size, c))
      ensures Bitmap.Bit(Bitmap.Put(bm, size, b, false), size, c) == (c != b && Bitmap.Bit(bm, size, c))
    {
      Bitmap.PutBit(bm, size, b, true, c);
      Bitmap.PutBit(bm, size, b, false, c);
    }
  }

  lemma Unlinked(inodes: map<nat, Inode>, blocks: map<nat, Block>, bm: seq<Bitmap.Bits>, owner: map<nat, Slot>,
                 dataStart: nat, size: nat,
                 inodes': map<nat, Inode>, blocks': map<nat, Block>, s: Slot)
    requires Core(inodes, blocks, bm, owner, dataStart, size) && At(inodes, blocks, s) != 0
    requires BlocksOk(blocks', size) && InodesOk(inodes') && Relinked(inodes, blocks, inodes', blocks', s, 0)
    ensures var b := At(inodes, blocks, s);
      b < size && Bitmap.Fits(bm, size) && Bitmap.Bit(bm, size, b) &&
      Core(inodes', blocks', Bitmap.Put(bm, size, b, false), owner - {b}, dataStart, size)
  {
    hide BlocksOk, InodesOk, At, Bitmap.Bit, Bitmap.Put;
    var b := At(inodes, blocks, s);
    assert b in owner && owner[b] == s;
    BitsLinked(bm, owner, dataStart, size, b, s);
    assert LinksOk(inodes', blocks', owner - {b}, dataStart, size);
  }

  // ----- which changes relink what -----

  /** Indirect blocks are the same in both. */
  ghost predicate SameIndirect(inodes: map<nat, Inode>, blocks: map<nat, Block>, blocks': map<nat, Block>) {
    forall j {:trigger j in inodes} ::
      j in inodes && |inodes[j].addrs| == NUM_DIRECT + 1 && inodes[j].addrs[NUM_DIRECT] != 0 ==>
      var ind := inodes[j].addrs[NUM_DIRECT]; ind in blocks && ind in blocks' && blocks[ind] == blocks'[ind]
  }

  lemma SameRefs(inodes: map<nat, Inode>, blocks: map<nat, Block>, blocks': map<nat, Block>, s: Slot)
    requires SameIndirect(inodes, blocks, blocks')
    ensures At(inodes, blocks', s) == At(inodes, blocks, s)
  {
    hide Word;
  }

  /** Changing a block that is nobody's indirect block leaves every reference alone. */
  lemma NotIndirect(inodes: map<nat, Inode>, blocks: map<nat, Block>, bm: seq<Bitmap.Bits>, owner: map<nat, Slot>,
                    dataStart: nat, size: nat, b: nat, x: Block)
    requires Core(inodes, blocks, bm, owner, dataStart, size) && b in blocks && (b in owner ==> owner[b].k != INDIRECT)
    ensures SameIndirect(inodes, blocks, blocks[b := x])
  {
    hide BitsOk, Word;
    forall j {:trigger j in inodes} | j in inodes && inodes[j].addrs[NUM_DIRECT] != 0
      ensures var ind := inodes[j].addrs[NUM_DIRECT]; ind in blocks && ind != b
    {
      assert At(inodes, blocks, Slot(j, INDIRECT)) == inodes[j].addrs[NUM_DIRECT];
    }
  }

  lemma RelinkDirect(inodes: map<nat, Inode>, blocks: map<nat, Block>, blocks': map<nat, Block>, ino: nat, i: nat,
                     v: nat)
    requires ino in inodes && InodesOk(inodes) && SameIndirect(inodes, blocks, blocks') && i < NUM_DIRECT
    ensures var n := inodes[ino];
      Relinked(inodes, blocks, inodes[ino := n.(addrs := n.addrs[i := v])], blocks', Slot(ino, i), v)
  {
    hide Word;
    var inodes' := inodes[ino := inodes[ino].(addrs := inodes[ino].addrs[i := v])];
    forall t: Slot
      ensures At(inodes', blocks', t) == if t == Slot(ino, i) then v else At(inodes, blocks, t)
    {
      SameRefs(inodes, blocks, blocks', t);
    }
  }

  /** Attaching an indirect block full of zeros, or detaching one. */
  lemma RelinkIndirect(inodes: map<nat, Inode>, blocks: map<nat, Block>, blocks': map<nat, Block>, ino: nat, v: nat)
    requires ino in inodes && InodesOk(inodes) && SameIndirect(inodes, blocks, blocks')
    requires forall k: nat {:trigger RefAt(inodes[ino], blocks, k)} ::
      NUM_DIRECT <= k < INDIRECT ==> RefAt(inodes[ino], blocks, k) == 0
    requires v == 0 || (v in blocks' && blocks'[v] == Zero())
    ensures var n := inodes[ino];
      Relinked(inodes, blocks, inodes[ino := n.(addrs := n.addrs[NUM_DIRECT := v])], blocks', Slot(ino, INDIRECT), v)
  {
    hide Word;
    var inodes' := inodes[ino := inodes[ino].(addrs := inodes[ino].addrs[NUM_DIRECT := v])];
    forall t: Slot ensures At(inodes', blocks', t) == if t == Slot(ino, INDIRECT) then v else At(inodes, blocks, t) {
      SameRefs(inodes, blocks, blocks', t);
      if t.ino == ino && NUM_DIRECT <= t.k < INDIRECT {
        ZeroWords(t.k - NUM_DIRECT);
        assert RefAt(inodes[ino], blocks, t.k) == 0;
      }
    }
  }

  /** Storing a reference in an indirect block. */
  lemma RelinkInside(inodes: map<nat, Inode>, blocks: map<nat, Block>, bm: seq<Bitmap.Bits>, owner: map<nat, Slot>,
                     dataStart: nat, size: nat,
                     blocks': map<nat, Block>, ino: nat, i: nat, v: nat)
    requires Core(inodes, blocks, bm, owner, dataStart, size) && ino in inodes && i < NUM_INDIRECT && v < 0x1_0000_0000
    requires RefAt(inodes[ino], blocks, INDIRECT) != 0 && SameIndirect(inodes, blocks, blocks')
    ensures var ind := RefAt(inodes[ino], blocks, INDIRECT);
      ind in blocks && |blocks[ind]| == BLOCK_SIZE &&
      Relinked(inodes, blocks, inodes, blocks'[ind := SetWord(blocks[ind], i, v)], Slot(ino, NUM_DIRECT + i), v)
  {
    hide Word, SetWord, BitsOk;
    var ind := RefAt(inodes[ino], blocks, INDIRECT);
    assert At(inodes, blocks, Slot(ino, INDIRECT)) == ind && ind in owner && owner[ind] == Slot(ino, INDIRECT);
    var blocks'' := blocks'[ind := SetWord(blocks[ind], i, v)];
    forall t: Slot
      ensures At(inodes, blocks'', t) == if t == Slot(ino, NUM_DIRECT + i) then v else At(inodes, blocks, t)
    {
      SameRefs(inodes, blocks, blocks', t);
      if t.ino in inodes && NUM_DIRECT <= t.k < INDIRECT {
        assert At(inodes, blocks, Slot(t.ino, INDIRECT)) == inodes[t.ino].addrs[NUM_DIRECT];
        SetWordGet(blocks[ind], i, v, t.k - NUM_DIRECT);
      }
    }
  }
}
