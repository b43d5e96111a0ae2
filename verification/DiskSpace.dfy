/** The file system without disk: a sequence of bytes per inode, and the slots that have a block. Blocks have no
    identity; all that counts is how many there are. */
module DiskSpace {
  import opened Common
  import opened Options
  import opened InodeBlocks
  import opened InodeContent

  const USIZE: nat := 0x1_0000_0000_0000_0000

  datatype Written = Wrote(n: nat) | FileTooLarge | OffsetTooLarge | OutOfBlocks

  datatype Call =
    | ReadCall(ino: nat, len: nat, off: nat)
    | WriteCall(ino: nat, src: seq<byte>, off: nat)
    | TruncateCall(ino: nat)

  datatype Reply = Bytes(data: seq<byte>) | Result(w: Written) | Done

  datatype Disk = Disk(files: map<nat, seq<byte>>, used: set<Slot>)

  /** Whether a slot gets a block, and the slots that have one afterwards. */
  datatype Grant = Grant(ok: bool, used: set<Slot>)

  // ----- taking blocks -----

  /** One of `cap` blocks for the slot, unless it has one. */
  function TakeSlot(used: set<Slot>, cap: nat, s: Slot): Grant {
    if s in used || |used| < cap then Grant(true, used + {s}) else Grant(false, used)
  }

  /** For data block `k` beyond the direct ones the indirect block is needed first. */
  function TakeBlock(used: set<Slot>, cap: nat, ino: nat, k: nat): Grant {
    if k < NUM_DIRECT then TakeSlot(used, cap, Slot(ino, k))
    else
      var g := TakeSlot(used, cap, Slot(ino, INDIRECT));
      if g.ok then TakeSlot(g.used, cap, Slot(ino, k)) else g
  }

  /** A write of `n` bytes at `off` of which `tot` are done: where it stops, and the slots in use then. */
  function Extent(used: set<Slot>, cap: nat, ino: nat, off: nat, n: nat, tot: nat): (r: (nat, set<Slot>))
    requires tot <= n
    ensures tot <= r.0 <= n
    decreases n - tot
  {
    if tot == n then (tot, used)
    else
      var at := off + tot;
      var g := TakeBlock(used, cap, ino, at / BLOCK_SIZE);
      if g.ok then Extent(g.used, cap, ino, off, n, tot + Min(n - tot, BLOCK_SIZE - at % BLOCK_SIZE)) else (tot, g.used)
  }

  lemma ExtentNext(used: set<Slot>, cap: nat, ino: nat, off: nat, n: nat, tot: nat)
    requires tot < n
    ensures var at := off + tot; var g := TakeBlock(used, cap, ino, at / BLOCK_SIZE);
      var m := Min(n - tot, BLOCK_SIZE - at % BLOCK_SIZE);
      Extent(used, cap, ino, off, n, tot) == if g.ok then Extent(g.used, cap, ino, off, n, tot + m) else (tot, g.used)
  {
    hide TakeBlock;
  }

  lemma ExtentEnd(used: set<Slot>, cap: nat, ino: nat, off: nat, n: nat)
    ensures Extent(used, cap, ino, off, n, n) == (n, used)
  {
  }

  lemma TakenOnce(used: set<Slot>, cap: nat, s: Slot)
    ensures s in used ==> TakeSlot(used, cap, s) == Grant(true, used)
  {
    if s in used { assert used + {s} == used; }
  }

  // ----- calls -----

  /** The answer to a call and the disk it leaves. */
  function Answer(d: Disk, cap: nat, call: Call): (Reply, Disk)
    requires call.ino in d.files
  {
    var f := d.files[call.ino];
    match call
    case ReadCall(_, len, off) =>
      (Bytes(if off > |f| || off + len >= USIZE then [] else f[off..off + Min(len, |f| - off)]), d)
    case WriteCall(ino, src, off) =>
      if off + |src| > MAX_FILE * BLOCK_SIZE then (Result(FileTooLarge), d)
      else if off > |f| then (Result(OffsetTooLarge), d)
      else
        var (n, used) := Extent(d.used, cap, ino, off, |src|, 0);
        if n == 0 < |src| then (Result(OutOfBlocks), d.(used := used))
        else (Result(Wrote(n)), Disk(d.files[ino := Spliced(f, off, src[..n])], used))
    case TruncateCall(ino) => (Done, Disk(d.files[ino := []], set s | s in d.used && s.ino != ino))
  }

  ghost predicate Known(files: map<nat, seq<byte>>, calls: seq<Call>) {
    forall i {:trigger calls[i]} :: 0 <= i < |calls| ==> calls[i].ino in files
  }

  lemma AnswerKeepsFiles(d: Disk, cap: nat, call: Call)
    requires call.ino in d.files
    ensures Answer(d, cap, call).1.files.Keys == d.files.Keys
  {
  }

  /** The answers to a history of calls. */
  ghost function Answers(d: Disk, cap: nat, calls: seq<Call>): (seq<Reply>, Disk)
    requires Known(d.files, calls)
    decreases |calls|
  {
    if calls == [] then ([], d)
    else
      AnswerKeepsFiles(d, cap, calls[0]);
      var first := Answer(d, cap, calls[0]);
      var rest := Answers(first.1, cap, calls[1..]);
      ([first.0] + rest.0, rest.1)
  }

  /** Answering one call more before the rest. */
  lemma AnswersNext(d: Disk, cap: nat, calls: seq<Call>, n: nat, replies: seq<Reply>)
    requires n < |calls| && Known(d.files, calls[n..])
    ensures calls[n].ino in d.files
    ensures var first := Answer(d, cap, calls[n]);
      && Known(first.1.files, calls[n + 1..])
      && replies + Answers(d, cap, calls[n..]).0 == replies + [first.0] + Answers(first.1, cap, calls[n + 1..]).0
      && Answers(d, cap, calls[n..]).1 == Answers(first.1, cap, calls[n + 1..]).1
  {
    hide Answer;
    var rest := calls[n..];
    assert rest[0] == calls[n] && rest[1..] == calls[n + 1..];
    AnswerKeepsFiles(d, cap, calls[n]);
    assert forall i {:trigger calls[n + 1..][i]} :: 0 <= i < |calls| - n - 1 ==> calls[n + 1..][i] == rest[i + 1];
  }

  // ----- what the answers mean -----

  function ByteOf(f: seq<byte>, i: nat): Option<byte> {
    if i < |f| then Some(f[i]) else None
  }

  /** A call was answered: byte `i` of file `ino`, which was `now`, is the one the call wrote there, or gone, or as
      before. */
  function ByteAfter(now: Option<byte>, call: Call, reply: Reply, ino: nat, i: nat): Option<byte> {
    if call.ino != ino then now
    else if call.TruncateCall? then None
    else if call.WriteCall? && reply.Result? && reply.w.Wrote? && call.off <= i < call.off + Min(reply.w.n, |call.src|)
    then Some(call.src[i - call.off])
    else now
  }

  /** The byte as the calls and their answers tell it: the last one written since the last truncation. */
  ghost function Latest(start: Option<byte>, calls: seq<Call>, replies: seq<Reply>, ino: nat, i: nat): Option<byte>
    requires |replies| == |calls|
    decreases |calls|
  {
    if calls == [] then start
    else Latest(ByteAfter(start, calls[0], replies[0], ino, i), calls[1..], replies[1..], ino, i)
  }

  lemma AnswerBytes(d: Disk, cap: nat, call: Call, ino: nat, i: nat)
    requires call.ino in d.files && ino in d.files
    ensures var (reply, d') := Answer(d, cap, call);
      ino in d'.files && ByteOf(d'.files[ino], i) == ByteAfter(ByteOf(d.files[ino], i), call, reply, ino, i)
  {
    hide Spliced, Extent;
    if call.WriteCall? && call.ino == ino && call.off <= |d.files[ino]| {
      var n := Extent(d.used, cap, ino, call.off, |call.src|, 0).0;
      SplicedBytes(d.files[ino], call.off, call.src[..n]);
    }
  }

  /** In every history each file holds, byte by byte, what was last written to it. */
  lemma {:induction false} BytesAreLatest(d: Disk, cap: nat, calls: seq<Call>, ino: nat, i: nat)
    requires Known(d.files, calls) && ino in d.files
    ensures var (replies, d') := Answers(d, cap, calls);
      && |replies| == |calls| && ino in d'.files
      && ByteOf(d'.files[ino], i) == Latest(ByteOf(d.files[ino], i), calls, replies, ino, i)
    decreases |calls|
  {
    hide Answer, ByteOf, ByteAfter;
    if calls != [] {
      AnswerKeepsFiles(d, cap, calls[0]);
      AnswerBytes(d, cap, calls[0], ino, i);
      BytesAreLatest(Answer(d, cap, calls[0]).1, cap, calls[1..], ino, i);
      var rest := Answers(Answer(d, cap, calls[0]).1, cap, calls[1..]).0;
      assert ([Answer(d, cap, calls[0]).0] + rest)[1..] == rest;
    }
  }

  /** In every history a read answers exactly what was last written to each position it asks for, up to the end of the
      file. */
  lemma {:induction false} ReadsAreLatest(d: Disk, cap: nat, calls: seq<Call>, k: nat, j: nat)
    requires Known(d.files, calls) && k < |calls| && calls[k].ReadCall? && j < calls[k].len
    requires calls[k].off + calls[k].len < USIZE
    ensures var replies := Answers(d, cap, calls).0;
      && |replies| == |calls| && replies[k].Bytes? && |replies[k].data| <= calls[k].len && calls[k].ino in d.files
      && ByteOf(replies[k].data, j) ==
        Latest(ByteOf(d.files[calls[k].ino], calls[k].off + j), calls[..k], replies[..k], calls[k].ino,
               calls[k].off + j)
    decreases k
  {
    hide Answer, ByteAfter;
    var call := calls[k];
    AnswerKeepsFiles(d, cap, calls[0]);
    var (reply, d') := Answer(d, cap, calls[0]);
    var rest := Answers(d', cap, calls[1..]).0;
    AnswersLength(d', cap, calls[1..]);
    if k == 0 {
      ReadAnswered(d, cap, call, j);
    } else {
      AnswerBytes(d, cap, calls[0], call.ino, call.off + j);
      ReadsAreLatest(d', cap, calls[1..], k - 1, j);
      assert calls[..k][1..] == calls[1..][..k - 1];
      assert ([reply] + rest)[..k][1..] == rest[..k - 1];
    }
  }

  lemma ReadAnswered(d: Disk, cap: nat, call: Call, j: nat)
    requires call.ReadCall? && call.ino in d.files && call.off + call.len < USIZE && j < call.len
    ensures var reply := Answer(d, cap, call).0;
      && reply.Bytes? && |reply.data| <= call.len
      && ByteOf(reply.data, j) == ByteOf(d.files[call.ino], call.off + j)
  {
  }

  lemma {:induction false} AnswersLength(d: Disk, cap: nat, calls: seq<Call>)
    requires Known(d.files, calls)
    ensures |Answers(d, cap, calls).0| == |calls|
    decreases |calls|
  {
    hide Answer;
    if calls != [] {
      AnswerKeepsFiles(d, cap, calls[0]);
      AnswersLength(Answer(d, cap, calls[0]).1, cap, calls[1..]);
    }
  }

  /** What a write says it wrote, a read finds. */
  lemma ReadAfterWrite(d: Disk, cap: nat, ino: nat, src: seq<byte>, off: nat, n: nat)
    requires ino in d.files && Answer(d, cap, WriteCall(ino, src, off)).0 == Result(Wrote(n))
    ensures n <= |src| && Known(d.files, [WriteCall(ino, src, off), ReadCall(ino, n, off)])
    ensures Answers(d, cap, [WriteCall(ino, src, off), ReadCall(ino, n, off)]).0 ==
      [Result(Wrote(n)), Bytes(src[..n])]
  {
    hide Spliced, Extent;
    var calls := [WriteCall(ino, src, off), ReadCall(ino, n, off)];
    SplicedBytes(d.files[ino], off, src[..n]);
    var d1 := Answer(d, cap, calls[0]).1;
    assert calls[1..] == [calls[1]] && [calls[1]][1..] == [];
    assert Answer(d1, cap, calls[1]).0 == Bytes(src[..n]);
    assert Answers(d1, cap, [calls[1]]).0 == [Bytes(src[..n])];
  }

  // ----- when a write is complete -----

  /** The slots the data blocks `lo..hi` of an inode take, with the indirect block where it is needed. */
  ghost function Slots(ino: nat, lo: nat, hi: nat): set<Slot> {
    (set k | lo <= k < hi :: Slot(ino, k)) + (if lo < hi && NUM_DIRECT < hi then {Slot(ino, INDIRECT)} else {})
  }

  lemma SlotsJoined(ino: nat, lo: nat, hi: nat)
    requires lo + 1 < hi
    ensures Slots(ino, lo, lo + 1) + Slots(ino, lo + 1, hi) == Slots(ino, lo, hi)
  {
    assert (set k | lo <= k < lo + 1 :: Slot(ino, k)) + (set k | lo + 1 <= k < hi :: Slot(ino, k)) ==
      set k | lo <= k < hi :: Slot(ino, k);
  }

  lemma TakeSlotExact(used: set<Slot>, cap: nat, s: Slot)
    requires |used| <= cap
    ensures var g := TakeSlot(used, cap, s);
      (g.ok <==> |used + {s}| <= cap) && (g.ok ==> g.used == used + {s}) && (!g.ok ==> g.used == used) &&
      |g.used| <= cap
  {
    if s in used { assert used + {s} == used; }
  }

  lemma TakeBlockExact(used: set<Slot>, cap: nat, ino: nat, k: nat)
    requires |used| <= cap && k < MAX_FILE
    ensures var g := TakeBlock(used, cap, ino, k);
      && (g.ok <==> |used + Slots(ino, k, k + 1)| <= cap)
      && (g.ok ==> g.used == used + Slots(ino, k, k + 1)) && |g.used| <= cap
  {
    hide TakeSlot;
    assert (set j | k <= j < k + 1 :: Slot(ino, j)) == {Slot(ino, k)};
    if k < NUM_DIRECT {
      TakeSlotExact(used, cap, Slot(ino, k));
    } else {
      var ind, all := used + {Slot(ino, INDIRECT)}, used + Slots(ino, k, k + 1);
      TakeSlotExact(used, cap, Slot(ino, INDIRECT));
      assert all == ind + {Slot(ino, k)};
      if |ind| <= cap { TakeSlotExact(ind, cap, Slot(ino, k)); } else { FewerSlots(ind, all); }
    }
  }

  lemma FewerSlots(x: set<Slot>, y: set<Slot>)
    requires x <= y
    ensures |x| <= |y|
  {
    assert y == x + (y - x);
  }

  /** A write gets as far as byte `t` exactly when there is a block for every slot up to it. */
  lemma {:induction false} ExtentReaches(used: set<Slot>, cap: nat, ino: nat, off: nat, n: nat, tot: nat, t: nat)
    requires tot < t <= n && |used| <= cap && off + n <= MAX_FILE * BLOCK_SIZE
    ensures t <= Extent(used, cap, ino, off, n, tot).0 <==>
      |used + Slots(ino, (off + tot) / BLOCK_SIZE, (off + t - 1) / BLOCK_SIZE + 1)| <= cap
    decreases n - tot
  {
    hide TakeBlock, Slots;
    var at := off + tot;
    var k, hi := at / BLOCK_SIZE, (off + t - 1) / BLOCK_SIZE + 1;
    var m := Min(n - tot, BLOCK_SIZE - at % BLOCK_SIZE);
    var g := TakeBlock(used, cap, ino, k);
    TakeBlockExact(used, cap, ino, k);
    ChunkEnd(off, n, tot, t);
    if hi > k + 1 { SlotsJoined(ino, k, hi); }
    if !g.ok {
      assert Slots(ino, k, k + 1) <= Slots(ino, k, hi);
      FewerSlots(used + Slots(ino, k, k + 1), used + Slots(ino, k, hi));
    } else if t > tot + m {
      ExtentReaches(g.used, cap, ino, off, n, tot + m, t);
      assert g.used + Slots(ino, k + 1, hi) == used + Slots(ino, k, hi);
    }
  }

  lemma ChunkEnd(off: nat, n: nat, tot: nat, t: nat)
    requires tot < t <= n && off + n <= MAX_FILE * BLOCK_SIZE
    ensures var at := off + tot; var m := Min(n - tot, BLOCK_SIZE - at % BLOCK_SIZE);
      && at / BLOCK_SIZE < MAX_FILE && at / BLOCK_SIZE + 1 <= (off + t - 1) / BLOCK_SIZE + 1
      && (t <= tot + m <==> (off + t - 1) / BLOCK_SIZE == at / BLOCK_SIZE)
      && (t > tot + m ==> (at + m) / BLOCK_SIZE == at / BLOCK_SIZE + 1)
  {
    var at := off + tot;
    var q, r := at / BLOCK_SIZE, at % BLOCK_SIZE;
    assert at == BLOCK_SIZE * q + r;
    var m := Min(n - tot, BLOCK_SIZE - r);
    if t <= tot + m {
      assert BLOCK_SIZE * q <= off + t - 1 < BLOCK_SIZE * (q + 1);
    } else {
      assert at + m == BLOCK_SIZE * (q + 1);
    }
  }

  /** So all of it is written exactly when there is a block for every slot it touches. */
  lemma WriteCompleteIff(used: set<Slot>, cap: nat, ino: nat, off: nat, n: nat)
    requires 0 < n && |used| <= cap && off + n <= MAX_FILE * BLOCK_SIZE
    ensures Extent(used, cap, ino, off, n, 0).0 == n <==>
      |used + Slots(ino, off / BLOCK_SIZE, (off + n - 1) / BLOCK_SIZE + 1)| <= cap
  {
    hide Extent, Slots;
    ExtentReaches(used, cap, ino, off, n, 0, n);
  }
}
