/** Reading, writing and truncating inodes: every inode behaves as one independent sequence of bytes. */
module InodeContent {
  import opened Common
  import opened Blocks
  import opened InodeBlocks
  import Bitmap

  // ----- the bytes of an inode -----

  function ByteAt(n: Inode, blocks: map<nat, Block>, j: nat): byte {
    var r := RefAt(n, blocks, j / BLOCK_SIZE);
    if r in blocks && |blocks[r]| == BLOCK_SIZE then blocks[r][j % BLOCK_SIZE] else 0
  }

  ghost function Text(n: Inode, blocks: map<nat, Block>, len: nat): (t: seq<byte>)
    ensures |t| == len
  {
    seq(len, j requires 0 <= j < len => ByteAt(n, blocks, j))
  }

  /** The first `len` bytes all have a block. */
  ghost predicate Backed(n: Inode, blocks: map<nat, Block>, len: nat) {
    forall k: nat {:trigger RefAt(n, blocks, k)} :: k < MAX_FILE && k * BLOCK_SIZE < len ==> RefAt(n, blocks, k) != 0
  }

  /** `f` with the bytes from `off` on replaced by `s`, growing if need be. */
  function Spliced(f: seq<byte>, off: nat, s: seq<byte>): (r: seq<byte>)
    requires off <= |f|
  {
    f[..off] + s + (if off + |s| < |f| then f[off + |s|..] else [])
  }

  /** Byte by byte. */
  lemma SplicedBytes(f: seq<byte>, off: nat, s: seq<byte>)
    requires off <= |f|
    ensures var g := Spliced(f, off, s);
      |g| == Max(|f|, off + |s|) && forall i {:trigger g[i]} :: 0 <= i < |g| ==>
        g[i] == if off <= i < off + |s| then s[i - off] else f[i]
  {
  }

  lemma SplicedTwice(f: seq<byte>, off: nat, s: seq<byte>, t: seq<byte>)
    requires off <= |f|
    ensures off + |s| <= |Spliced(f, off, s)| && Spliced(Spliced(f, off, s), off + |s|, t) == Spliced(f, off, s + t)
  {
  }

  /** References in use stay, and so does what they refer to. */
  ghost predicate Preserves(inodes: map<nat, Inode>, blocks: map<nat, Block>, inodes': map<nat, Inode>,
                            blocks': map<nat, Block>) {
    && inodes'.Keys == inodes.Keys
    && (forall j {:trigger inodes'[j]} :: j in inodes ==> inodes'[j].size == inodes[j].size)
    && forall s: Slot {:trigger At(inodes', blocks', s)} {:trigger At(inodes, blocks, s)} ::
         s.k < MAX_FILE && At(inodes, blocks, s) != 0 ==>
           At(inodes', blocks', s) == At(inodes, blocks, s) && At(inodes, blocks, s) in blocks &&
           At(inodes, blocks, s) in blocks' && blocks'[At(inodes, blocks, s)] == blocks[At(inodes, blocks, s)]
  }

  lemma TextPreserved(inodes: map<nat, Inode>, blocks: map<nat, Block>, inodes': map<nat, Inode>,
                      blocks': map<nat, Block>, j: nat, len: nat)
    requires Preserves(inodes, blocks, inodes', blocks') && j in inodes && Backed(inodes[j], blocks, len)
    requires len <= MAX_FILE * BLOCK_SIZE
    ensures Backed(inodes'[j], blocks', len) && Text(inodes'[j], blocks', len) == Text(inodes[j], blocks, len)
  {
    hide RefAt;
    forall k: nat {:trigger RefAt(inodes'[j], blocks', k)} | k < MAX_FILE && k * BLOCK_SIZE < len
      ensures RefAt(inodes'[j], blocks', k) == RefAt(inodes[j], blocks, k) != 0
    {
      assert At(inodes, blocks, Slot(j, k)) == RefAt(inodes[j], blocks, k);
      assert At(inodes', blocks', Slot(j, k)) == RefAt(inodes'[j], blocks', k);
    }
    forall i: nat | i < len ensures ByteAt(inodes'[j], blocks', i) == ByteAt(inodes[j], blocks, i) {
      var k := i / BLOCK_SIZE;
      assert k < MAX_FILE && k * BLOCK_SIZE < len;
      assert At(inodes, blocks, Slot(j, k)) == RefAt(inodes[j], blocks, k);
      assert At(inodes', blocks', Slot(j, k)) == RefAt(inodes'[j], blocks', k);
    }
  }

  /** Linking a fresh block into an unused slot preserves every reference in use. */
  lemma LinkPreserves(inodes: map<nat, Inode>, blocks: map<nat, Block>, bm: seq<Bitmap.Bits>, owner: map<nat, Slot>,
                      dataStart: nat, size: nat,
                      inodes': map<nat, Inode>, blocks': map<nat, Block>, s: Slot, b: nat)
    requires Core(inodes, blocks, bm, owner, dataStart, size) && At(inodes, blocks, s) == 0
    requires Relinked(inodes, blocks, inodes', blocks', s, b)
    requires inodes'.Keys == inodes.Keys
    requires forall j {:trigger inodes'[j]} :: j in inodes ==> inodes'[j].size == inodes[j].size
    requires forall r: nat {:trigger r in owner} ::
      r in owner && owner[r].k != INDIRECT ==> r in blocks && r in blocks' && blocks'[r] == blocks[r]
    ensures Preserves(inodes, blocks, inodes', blocks')
  {
    hide At, BitsOk, BlocksOk, InodesOk;
  }

  // ----- writing part of one block -----

  /** Block `k` of the inode with `s` stored from `from` on. */
  function Patched(x: Block, from: nat, s: seq<byte>): (r: Block)
    requires |x| == BLOCK_SIZE && from + |s| <= BLOCK_SIZE
    ensures |r| == BLOCK_SIZE
  {
    x[..from] + s + x[from + |s|..]
  }

  /** Storing a chunk in the block that holds offset `off` splices it into the text. */
  lemma ChunkWritten(n: Inode, blocks: map<nat, Block>, blocks': map<nat, Block>, len: nat, off: nat, s: seq<byte>)
    requires off <= len && 0 < |s| && off % BLOCK_SIZE + |s| <= BLOCK_SIZE && off / BLOCK_SIZE < MAX_FILE
    requires Backed(n, blocks, len)
    requires var r := RefAt(n, blocks, off / BLOCK_SIZE);
      && r != 0 && r in blocks && |blocks[r]| == BLOCK_SIZE
      && blocks' == blocks[r := Patched(blocks[r], off % BLOCK_SIZE, s)]
    requires forall k: nat {:trigger RefAt(n, blocks, k)} {:trigger RefAt(n, blocks', k)} :: k < MAX_FILE ==>
      RefAt(n, blocks', k) == RefAt(n, blocks, k) &&
      (RefAt(n, blocks, k) == RefAt(n, blocks, off / BLOCK_SIZE) ==> k == off / BLOCK_SIZE)
    requires off + |s| <= MAX_FILE * BLOCK_SIZE && len <= MAX_FILE * BLOCK_SIZE
    ensures var len' := if len < off + |s| then off + |s| else len;
      Backed(n, blocks', len') && Text(n, blocks', len') == Spliced(Text(n, blocks, len), off, s)
    ensures forall i: nat {:trigger ByteAt(n, blocks', i)} :: i < len || i < off + |s| ==>
      ByteAt(n, blocks', i) == if off <= i < off + |s| then s[i - off] else ByteAt(n, blocks, i)
  {
    hide RefAt;
    var q, r := off / BLOCK_SIZE, RefAt(n, blocks, off / BLOCK_SIZE);
    var len' := if len < off + |s| then off + |s| else len;
    forall k: nat {:trigger RefAt(n, blocks', k)} | k < MAX_FILE && k * BLOCK_SIZE < len'
      ensures RefAt(n, blocks', k) != 0
    {
      if k * BLOCK_SIZE >= len { assert k == q; }
    }
    var t := Spliced(Text(n, blocks, len), off, s);
    assert |t| == len';
    forall i: nat {:trigger ByteAt(n, blocks', i)} | i < len'
      ensures ByteAt(n, blocks', i) == t[i] == if off <= i < off + |s| then s[i - off] else ByteAt(n, blocks, i)
    {
      var k := i / BLOCK_SIZE;
      SameBlock(off, i);
      assert RefAt(n, blocks', k) == RefAt(n, blocks, k);
      if k == q {
        assert blocks'[r][i % BLOCK_SIZE] == if off <= i < off + |s| then s[i - off] else blocks[r][i % BLOCK_SIZE];
      } else {
        assert !(off <= i < off + |s|);
        assert RefAt(n, blocks, k) != r;
      }
      assert t[i] == if off <= i < off + |s| then s[i - off] else ByteAt(n, blocks, i);
    }
  }

  lemma SameBlock(off: nat, i: nat)
    ensures i / BLOCK_SIZE == off / BLOCK_SIZE ==> i - off == i % BLOCK_SIZE - off % BLOCK_SIZE
    ensures off <= i < off - off % BLOCK_SIZE + BLOCK_SIZE ==> i / BLOCK_SIZE == off / BLOCK_SIZE
  {
  }
}
