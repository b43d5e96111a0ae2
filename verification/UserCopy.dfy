/** Copies between the kernel and user memory, page by page, for any alignment. */
module UserCopy {
  import opened Options
  import opened Common
  import opened VirtualMemory
  import opened CopyOnWrite
  import opened AddressSpaces

  /** What `validate` establishes for one address: mapped with the flags, copy-on-write counting as writable. */
  ghost predicate Allowed(s: State, a: nat, va: nat, need: set<Flag>) {
    KeyOf(a, va) in s.leaves && need <= Logical(s.leaves[KeyOf(a, va)].flags)
  }

  ghost predicate Validated(s: State, a: nat, lo: nat, hi: nat, need: set<Flag>) {
    forall x: nat {:trigger KeyOf(a, x)} :: lo <= x < hi ==> Allowed(s, a, x, need)
  }

  /** How many of the pages `p..q` of space `a` must be copied before they can be written. */
  ghost function Copies(s: State, a: nat, p: nat, q: nat): nat
    decreases q - p
  {
    if p >= q then 0 else (if MustCopy(s, Key(a, VpnOf(p))) then 1 else 0) + Copies(s, a, p + 1, q)
  }

  /** The frames a store to every address of `lo..hi` takes. */
  ghost function Need(s: State, a: nat, lo: nat, hi: nat): nat {
    Copies(s, a, lo / PAGE_SIZE, PageEnd(lo, hi))
  }

  /** The page after the last one `lo..hi` touches. */
  function PageEnd(lo: nat, hi: nat): nat {
    if lo < hi then (hi - 1) / PAGE_SIZE + 1 else lo / PAGE_SIZE
  }

  /** `data` now stands at `va` in space `a`; every other byte of every space is as before. */
  ghost predicate Wrote(s: State, t: State, a: nat, va: nat, data: seq<byte>) {
    forall b: nat, x: nat {:trigger ByteAt(t, b, x)} ::
      ByteAt(t, b, x) == if b == a && va <= x < va + |data| then Some(data[x - va]) else ByteAt(s, b, x)
  }

  /** Mappings and logical permissions are as before. */
  ghost predicate SameRights(s: State, t: State) {
    forall k {:trigger SameRight(s, t, k)} :: SameRight(s, t, k)
  }

  ghost predicate SameRight(s: State, t: State, k: Key) {
    (k in t.leaves <==> k in s.leaves) && (k in s.leaves ==> Logical(t.leaves[k].flags) == Logical(s.leaves[k].flags))
  }

  // ----- one chunk -----

  function Splice(p: Page, off: nat, data: seq<byte>): Page
    requires off + |data| <= |p|
  {
    p[..off] + data + p[off + |data|..]
  }

  lemma ChunkWritten(s: State, k: Key, off: nat, data: seq<byte>)
    requires Inv(s) && k in s.leaves && W in s.leaves[k].flags && off + |data| <= PAGE_SIZE
    ensures var f := s.leaves[k].frame;
      f in s.mem && |s.mem[f]| == PAGE_SIZE && var t := s.(mem := s.mem[f := Splice(s.mem[f], off, data)]);
      Inv(t) && OthersKept(s, t, k) && PageAt(s, k).bytes == s.mem[f] &&
      PageAt(t, k).bytes == Splice(s.mem[f], off, data)
  {
    var f := s.leaves[k].frame;
    assert EntryOk(s.heap, s.leaves[k]);
    assert Sized(s.mem, f);
    PageSet(s.heap, s.mem, f, Splice(s.mem[f], off, data));
    forall l | l in s.leaves && l != k ensures s.leaves[l].frame != f { assert Exclusive(s.leaves, k, l); }
  }

  lemma SamePage(a: nat, x: nat, b: nat, y: nat)
    ensures KeyOf(a, x) == KeyOf(b, y) <==> a == b && x / PAGE_SIZE == y / PAGE_SIZE
  {
    if KeyOf(a, x) == KeyOf(b, y) { VpnInjective(x / PAGE_SIZE, y / PAGE_SIZE); }
  }

  lemma WroteNext(s: State, r: State, t: State, a: nat, va: nat, data: seq<byte>, i: nat, n: nat)
    requires i + n <= |data| && (va + i) % PAGE_SIZE + n <= PAGE_SIZE
    requires Wrote(s, r, a, va, data[..i])
    requires var k := KeyOf(a, va + i);
      && OthersKept(r, t, k) && k in r.leaves && k in t.leaves && |PageAt(r, k).bytes| == PAGE_SIZE
      && PageAt(t, k).bytes == Splice(PageAt(r, k).bytes, (va + i) % PAGE_SIZE, data[i..i + n])
    ensures Wrote(s, t, a, va, data[..i + n])
  {
    var k, off := KeyOf(a, va + i), (va + i) % PAGE_SIZE;
    forall b: nat, x: nat
      ensures ByteAt(t, b, x) == if b == a && va <= x < va + i + n then Some(data[..i + n][x - va]) else ByteAt(s, b, x)
    {
      SamePage(b, x, a, va + i);
      var o := x % PAGE_SIZE;
      assert ByteAt(r, b, x) == if b == a && va <= x < va + i then Some(data[..i][x - va]) else ByteAt(s, b, x);
      if KeyOf(b, x) == k {
        assert x - o == va + i - off;
        assert ByteAt(t, b, x) == Some(if off <= o < off + n then data[i..i + n][o - off] else PageAt(r, k).bytes[o]);
      } else {
        assert Kept(r, t, KeyOf(b, x));
      }
    }
  }

  // ----- frames taken -----

  /** The pages `p..q` need the same copies in both states. */
  ghost predicate SameNeed(s: State, t: State, a: nat, p: nat, q: nat) {
    forall n {:trigger VpnOf(n)} :: p <= n < q ==> (MustCopy(s, Key(a, VpnOf(n))) <==> MustCopy(t, Key(a, VpnOf(n))))
  }

  lemma {:induction false} CopiesSame(s: State, t: State, a: nat, p: nat, q: nat)
    requires SameNeed(s, t, a, p, q)
    ensures Copies(s, a, p, q) == Copies(t, a, p, q)
    decreases q - p
  {
    hide MustCopy, VpnOf;
    if p < q {
      assert MustCopy(s, Key(a, VpnOf(p))) <==> MustCopy(t, Key(a, VpnOf(p)));
      CopiesSame(s, t, a, p + 1, q);
    }
  }

  /** Taking a private page changes the need of no other page of the space: user pages of one space do not share
      frames. */
  lemma BreakNeed(s: State, k: Key, l: Key)
    requires Inv(s) && CanBreak(s, k) && k.asid == l.asid && k != l && k in s.leaves
    requires {U, W} <= Logical(s.leaves[k].flags)
    ensures var t := RequestUserWrite(s, k).s; !MustCopy(t, k) && (MustCopy(s, l) <==> MustCopy(t, l))
  {
    assert EntryOk(s.heap, s.leaves[k]);
    if l in s.leaves {
      assert Exclusive(s.leaves, k, l);
      assert EntryOk(s.heap, s.leaves[l]);
    }
    if C in s.leaves[k].flags {
      CowEntry(s, k);
      LeafFrame(s, k);
      if MustCopy(s, k) { FreeUnnamed(s, s.free[0]); }
    }
  }

  lemma NeedAfterBreak(s: State, a: nat, start: nat, end: nat, n: nat)
    requires Inv(s) && CanBreak(s, KeyOf(a, start)) && KeyOf(a, start) in s.leaves
    requires {U, W} <= Logical(s.leaves[KeyOf(a, start)].flags)
    requires start < end && n == Min(end - start, PAGE_SIZE - start % PAGE_SIZE)
    ensures var t := RequestUserWrite(s, KeyOf(a, start)).s;
      Need(s, a, start, end) == (if MustCopy(s, KeyOf(a, start)) then 1 else 0) + Need(t, a, start + n, end)
  {
    var k, t := KeyOf(a, start), RequestUserWrite(s, KeyOf(a, start)).s;
    var p, q := start / PAGE_SIZE, PageEnd(start, end);
    NextPages(start, end, n);
    forall m {:trigger VpnOf(m)} | p + 1 <= m < q
      ensures MustCopy(s, Key(a, VpnOf(m))) <==> MustCopy(t, Key(a, VpnOf(m)))
    {
      if VpnOf(m) == VpnOf(p) { VpnInjective(m, p); }
      hide VpnOf;
      BreakNeed(s, k, Key(a, VpnOf(m)));
    }
    hide MustCopy, RequestUserWrite, VpnOf;
    CopiesSame(s, t, a, p + 1, q);
  }

  lemma NextPages(start: nat, end: nat, n: nat)
    requires start < end && n == Min(end - start, PAGE_SIZE - start % PAGE_SIZE)
    ensures 0 < n <= end - start && start / PAGE_SIZE < PageEnd(start, end)
    ensures (start + n) / PAGE_SIZE >= PageEnd(start + n, end) ==> PageEnd(start, end) == start / PAGE_SIZE + 1
    ensures (start + n) / PAGE_SIZE < PageEnd(start + n, end) ==>
      (start + n) / PAGE_SIZE == start / PAGE_SIZE + 1 && PageEnd(start + n, end) == PageEnd(start, end)
  {
  }

  // ----- chunks -----

  /** The bytes `lo..lo + |data|` of space `a` read `data`. */
  ghost predicate Reads(s: State, a: nat, lo: nat, data: seq<byte>) {
    forall i {:trigger data[i]} :: 0 <= i < |data| ==> ByteAt(s, a, lo + i) == Some(data[i])
  }

  lemma ChunkRead(s: State, a: nat, va: nat, n: nat)
    requires Inv(s) && KeyOf(a, va) in s.leaves && U in s.leaves[KeyOf(a, va)].flags && va % PAGE_SIZE + n <= PAGE_SIZE
    ensures var f := s.leaves[KeyOf(a, va)].frame;
      f in s.mem && |s.mem[f]| == PAGE_SIZE && Reads(s, a, va, s.mem[f][va % PAGE_SIZE..va % PAGE_SIZE + n])
  {
    var k := KeyOf(a, va);
    var f := s.leaves[k].frame;
    assert EntryOk(s.heap, s.leaves[k]) && Sized(s.mem, f);
    var data := s.mem[f][va % PAGE_SIZE..va % PAGE_SIZE + n];
    forall i | 0 <= i < |data| ensures ByteAt(s, a, va + i) == Some(data[i]) {
      SamePage(a, va + i, a, va);
      assert (va + i) % PAGE_SIZE == va % PAGE_SIZE + i;
    }
  }

  /** A non-empty chunk is the page of space `a` from address `va` on. */
  ghost predicate At(leaves: map<Key, Pte>, c: Slice, a: nat, va: nat, flag: Flag) {
    c.lo < c.hi ==>
      && KeyOf(a, va) in leaves && flag in leaves[KeyOf(a, va)].flags && c.frame == leaves[KeyOf(a, va)].frame
      && c.lo == va % PAGE_SIZE && c.hi <= PAGE_SIZE
  }

  /** `fetch_chunk`: the rest of the page at `va`, if it is mapped with the flags. What the slice holds is what the
      user reads from `va` on. */
  method FetchChunk(m: Machine, a: nat, va: nat, need: set<Flag>) returns (r: Option<Slice>)
    ensures r.Some? <==> KeyOf(a, va) in m.leaves && need <= m.leaves[KeyOf(a, va)].flags
    ensures r.Some? && U in need ==> At(m.leaves, r.value, a, va, U) && r.value.lo < r.value.hi == PAGE_SIZE
    ensures r.Some? && U in need && Inv(m.St()) ==>
      && r.value.frame in m.mem && |m.mem[r.value.frame]| == PAGE_SIZE && r.value.lo <= r.value.hi <= PAGE_SIZE
      && Reads(m.St(), a, va, m.mem[r.value.frame][r.value.lo..r.value.hi])
  {
    hide Inv, Reads;
    var k := KeyOf(a, va);
    if k !in m.leaves || !(need <= m.leaves[k].flags) { return None; }
    if U in need && Inv(m.St()) { ChunkRead(m.St(), a, va, PAGE_SIZE - va % PAGE_SIZE); }
    r := Some(Slice(m.leaves[k].frame, va % PAGE_SIZE, PAGE_SIZE));
  }

  /** `fetch_chunk_mut`: the same, after taking a private page where the entry is copy-on-write. It fails exactly when
      that takes a copy and no frame is free. */
  method FetchChunkMut(m: Machine, a: nat, va: nat) returns (r: Option<Slice>)
    requires Inv(m.St()) && Allowed(m.St(), a, va, {U, W})
    modifies m`mem, m`count, m`free, m`leaves
    ensures m.St() == RequestUserWrite(old(m.St()), KeyOf(a, va)).s
    ensures r.Some? <==> CanBreak(old(m.St()), KeyOf(a, va))
    ensures r.Some? ==> Inv(m.St()) && AllKept(old(m.St()), m.St())
    ensures r.Some? ==> |m.free| == |old(m.free)| - (if MustCopy(old(m.St()), KeyOf(a, va)) then 1 else 0)
    ensures r.Some? ==> r.value.lo < r.value.hi == PAGE_SIZE && At(m.leaves, r.value, a, va, W)
    ensures r.Some? ==>
      forall l {:trigger SameLeaf(old(m.leaves), m.leaves, l)} :: l != KeyOf(a, va) ==>
        SameLeaf(old(m.leaves), m.leaves, l)
  {
    var k := KeyOf(a, va);
    ghost var s := m.St();
    BreakOutcome(s, k);
    hide FieldsOk, RequestUserWrite;
    if CanBreak(s, k) { RequestUserWriteOk(s, k); }
    if C in m.leaves[k].flags {
      var out := m.BreakShare(k);
      if !out.Done? { return None; }
    }
    r := Some(Slice(m.leaves[k].frame, va % PAGE_SIZE, PAGE_SIZE));
  }

  lemma BreakOutcome(s: State, k: Key)
    requires Inv(s) && k in s.leaves && {U, W} <= Logical(s.leaves[k].flags)
    ensures C !in s.leaves[k].flags ==> RequestUserWrite(s, k) == Result(s, Done)
    ensures RequestUserWrite(s, k).out.Done? <==> CanBreak(s, k)
  {
    assert EntryOk(s.heap, s.leaves[k]);
    if C in s.leaves[k].flags {
      CowEntry(s, k);
      LeafFrame(s, k);
      if CanBreak(s, k) { RequestUserWriteOk(s, k); }
    }
  }

  lemma RightsKept(s: State, r: State, t: State)
    requires SameRights(s, r) && AllKept(r, t)
    ensures SameRights(s, t)
  {
    forall k ensures SameRight(s, t, k) { assert SameRight(s, r, k) && Kept(r, t, k); }
  }

  lemma RightsChained(s: State, r: State, t: State)
    requires SameRights(s, r) && SameRights(r, t)
    ensures SameRights(s, t)
  {
    forall k ensures SameRight(s, t, k) { assert SameRight(s, r, k) && SameRight(r, t, k); }
  }

  lemma Unwritten(s: State, a: nat, va: nat)
    ensures Wrote(s, s, a, va, []) && SameRights(s, s)
  {
  }

  lemma StillAllowed(s: State, t: State, a: nat, lo: nat, hi: nat, need: set<Flag>, x: nat)
    requires Validated(s, a, lo, hi, need) && SameRights(s, t) && lo <= x < hi
    ensures Allowed(t, a, x, need)
  {
    assert Allowed(s, a, x, need) && SameRight(s, t, KeyOf(a, x));
  }

  lemma BytesKept(s: State, t: State, a: nat, va: nat, data: seq<byte>, r: State)
    requires Wrote(s, r, a, va, data) && AllKept(r, t)
    ensures Wrote(s, t, a, va, data)
  {
    forall b: nat, x: nat ensures ByteAt(t, b, x) == ByteAt(r, b, x) { assert Kept(r, t, KeyOf(b, x)); }
    forall b: nat, x: nat
      ensures ByteAt(t, b, x) == if b == a && va <= x < va + |data| then Some(data[x - va]) else ByteAt(s, b, x)
    {
      assert ByteAt(t, b, x) == ByteAt(r, b, x);
    }
  }

  /** `dst_chunk[..n].copy_from_slice(..)` through a chunk that `fetch_chunk_mut` returned. */
  method WriteChunk(m: Machine, ghost a: nat, ghost va: nat, chunk: Slice, data: seq<byte>)
    requires var k := KeyOf(a, va);
      && Inv(m.St()) && k in m.leaves && W in m.leaves[k].flags
      && chunk.frame == m.leaves[k].frame && chunk.lo == va % PAGE_SIZE && va % PAGE_SIZE + |data| <= PAGE_SIZE
    modifies m`mem
    ensures Inv(m.St()) && SameRights(old(m.St()), m.St())
    ensures var k := KeyOf(a, va);
      OthersKept(old(m.St()), m.St(), k) && |PageAt(old(m.St()), k).bytes| == PAGE_SIZE
      && PageAt(m.St(), k).bytes == Splice(PageAt(old(m.St()), k).bytes, va % PAGE_SIZE, data)
  {
    hide FieldsOk;
    ChunkWritten(m.St(), KeyOf(a, va), va % PAGE_SIZE, data);
    m.mem := m.mem[chunk.frame := Splice(m.mem[chunk.frame], chunk.lo, data)];
    forall k ensures SameRight(old(m.St()), m.St(), k) { }
  }

  lemma ReadsJoined(s: State, a: nat, va: nat, x: seq<byte>, y: seq<byte>)
    requires Reads(s, a, va, x) && Reads(s, a, va + |x|, y)
    ensures Reads(s, a, va, x + y)
  {
    forall i | 0 <= i < |x + y| ensures ByteAt(s, a, va + i) == Some((x + y)[i]) {
      if i < |x| { assert (x + y)[i] == x[i]; } else { assert (x + y)[i] == y[i - |x|]; }
    }
  }

  /** `copy_u2k_bytes`: the result is what the user reads there. */
  method CopyFromUser(m: Machine, a: nat, va: nat, len: nat) returns (dst: seq<byte>)
    requires Inv(m.St()) && Validated(m.St(), a, va, va + len, {U, R})
    ensures |dst| == len && Reads(m.St(), a, va, dst)
  {
    hide Inv, ByteAt;
    dst := [];
    assert Reads(m.St(), a, va, dst);
    hide Reads;
    var start, end := va, va + len;
    while start < end
      invariant va <= start <= end && |dst| == start - va
      invariant Reads(m.St(), a, va, dst)
    {
      var k := KeyOf(a, start);
      assert Allowed(m.St(), a, start, {U, R});
      assert {U, R} <= m.leaves[k].flags;
      var chunk := FetchChunk(m, a, start, {U, R});
      var n := Min(end - start, chunk.value.hi - chunk.value.lo);
      ChunkRead(m.St(), a, start, n);
      var piece := m.mem[chunk.value.frame][chunk.value.lo..chunk.value.lo + n];
      assert |piece| == n;
      ReadsJoined(m.St(), a, va, dst, piece);
      dst := dst + piece;
      start := start + n;
    }
  }

  lemma ReadsUnaffected(s: State, t: State, a: nat, va: nat, data: seq<byte>, b: nat, lo: nat, out: seq<byte>)
    requires Wrote(s, t, a, va, data) && a != b && Reads(t, b, lo, out)
    ensures Reads(s, b, lo, out)
  {
    forall i | 0 <= i < |out|
      ensures ByteAt(s, b, lo + i) == Some(out[i])
    {
      assert ByteAt(t, b, lo + i) == Some(out[i]);
    }
  }

  lemma AtNext(leaves: map<Key, Pte>, c: Slice, a: nat, va: nat, flag: Flag, n: nat)
    requires At(leaves, c, a, va, flag) && c.lo + n <= c.hi
    ensures At(leaves, c.(lo := c.lo + n), a, va + n, flag)
  {
    SamePage(a, va + n, a, va);
  }

  lemma AtEmpty(leaves: map<Key, Pte>, a: nat, va: nat, flag: Flag)
    ensures At(leaves, Slice(0, 0, 0), a, va, flag)
  {
  }

  lemma AtOther(leaves: map<Key, Pte>, leaves': map<Key, Pte>, c: Slice, a: nat, va: nat, flag: Flag)
    requires At(leaves, c, a, va, flag)
    requires SameLeaf(leaves, leaves', KeyOf(a, va))
    ensures At(leaves', c, a, va, flag)
  {
  }

  /** Stores change no need: it depends on entries and counts alone. */
  lemma NeedKept(s: State, t: State, a: nat, lo: nat, hi: nat)
    requires s.leaves == t.leaves && s.count == t.count
    ensures Need(s, a, lo, hi) == Need(t, a, lo, hi)
  {
    CopiesSame(s, t, a, lo / PAGE_SIZE, PageEnd(lo, hi));
  }

  /** The next destination chunk, cut at `end`; none when its page must be copied and no frame is free. */
  method NextWritable(m: Machine, a: nat, start: nat, end: nat, ghost s0: State, ghost va: nat,
                      ghost data: seq<byte>) returns (r: Option<Slice>)
    requires Inv(m.St()) && va <= start < end && Validated(s0, a, va, end, {U, W})
    requires Wrote(s0, m.St(), a, va, data) && SameRights(s0, m.St())
    modifies m`mem, m`count, m`free, m`leaves
    ensures r.None? ==> |old(m.free)| < Need(old(m.St()), a, start, end)
    ensures r.Some? ==> Inv(m.St()) && Wrote(s0, m.St(), a, va, data) && SameRights(s0, m.St())
    ensures r.Some? ==> var c := r.value;
      && c.lo < c.hi && At(m.leaves, c, a, start, W) && start + (c.hi - c.lo) <= end
      && |m.free| - Need(m.St(), a, start + (c.hi - c.lo), end) == |old(m.free)| - Need(old(m.St()), a, start, end)
    ensures r.Some? ==>
      forall l: Key {:trigger SameLeaf(old(m.leaves), m.leaves, l)} :: l.asid != a ==>
        SameLeaf(old(m.leaves), m.leaves, l)
  {
    hide Inv, Wrote, SameRights, RequestUserWrite, MustCopy, AllKept, Need;
    StillAllowed(s0, m.St(), a, va, end, {U, W}, start);
    ghost var s := m.St();
    var chunk := FetchChunkMut(m, a, start);
    if chunk.None? {
      SomeNeed(s, a, start, end);
      return None;
    }
    RightsKept(s0, s, m.St());
    BytesKept(s0, m.St(), a, va, data, s);
    var c := chunk.value;
    NeedAfterBreak(s, a, start, end, Min(end - start, c.hi - c.lo));
    if c.hi - c.lo > end - start { c := c.(hi := c.lo + (end - start)); }
    r := Some(c);
  }

  lemma SomeNeed(s: State, a: nat, start: nat, end: nat)
    requires start < end && !CanBreak(s, KeyOf(a, start))
    ensures |s.free| < Need(s, a, start, end)
  {
    NextPages(start, end, Min(end - start, PAGE_SIZE - start % PAGE_SIZE));
    assert MustCopy(s, Key(a, VpnOf(start / PAGE_SIZE)));
  }

  /** The next source chunk, cut at `end`. */
  method NextReadable(m: Machine, a: nat, start: nat, end: nat, ghost s0: State, ghost va: nat) returns (c: Slice)
    requires Inv(m.St()) && va <= start < end && Validated(s0, a, va, end, {U, R}) && SameRights(s0, m.St())
    ensures c.lo < c.hi && At(m.leaves, c, a, start, U) && start + (c.hi - c.lo) <= end
  {
    hide SameRights;
    StillAllowed(s0, m.St(), a, va, end, {U, R}, start);
    assert {U, R} <= m.leaves[KeyOf(a, start)].flags;
    var chunk := FetchChunk(m, a, start, {U, R});
    c := chunk.value;
    if c.hi - c.lo > end - start { c := c.(hi := c.lo + (end - start)); }
  }

  /** Copy the common part of the two chunks. */
  method CopyPiece(m: Machine, da: nat, dva: nat, dst: Slice, sa: nat, sva: nat, src: Slice, n: nat, ghost s0: State,
                   ghost data: seq<byte>)
    returns (ghost piece: seq<byte>)
    requires Inv(m.St()) && da != sa && 0 < n <= dst.hi - dst.lo && n <= src.hi - src.lo
    requires At(m.leaves, dst, da, dva + |data|, W) && At(m.leaves, src, sa, sva + |data|, U)
    requires Wrote(s0, m.St(), da, dva, data) && SameRights(s0, m.St()) && Reads(s0, sa, sva, data)
    modifies m`mem
    ensures |piece| == n && Reads(s0, sa, sva, data + piece)
    ensures Inv(m.St()) && Wrote(s0, m.St(), da, dva, data + piece) && SameRights(s0, m.St())
  {
    hide Inv, Wrote, SameRights, Reads;
    ChunkRead(m.St(), sa, sva + |data|, n);
    var bytes := m.mem[src.frame][src.lo..src.lo + n];
    ReadsUnaffected(s0, m.St(), da, dva, data, sa, sva + |data|, bytes);
    ReadsJoined(s0, sa, sva, data, bytes);
    WriteChunk(m, da, dva + |data|, dst, bytes);
    RightsChained(s0, old(m.St()), m.St());
    AppendWrote(s0, old(m.St()), m.St(), da, dva, data, bytes);
    piece := bytes;
  }

  /** `copy_k2u_bytes`: `ok` is false where taking a private page fails and the result is unwrapped. */
  method CopyToUser(m: Machine, a: nat, va: nat, src: seq<byte>) returns (ok: bool)
    requires Inv(m.St()) && Validated(m.St(), a, va, va + |src|, {U, W})
    modifies m`mem, m`count, m`free, m`leaves
    ensures ok <==> Need(old(m.St()), a, va, va + |src|) <= |old(m.free)|
    ensures ok ==> Inv(m.St()) && Wrote(old(m.St()), m.St(), a, va, src) && SameRights(old(m.St()), m.St())
    ensures ok ==> |m.free| == |old(m.free)| - Need(old(m.St()), a, va, va + |src|)
  {
    hide Inv, Wrote, SameRights, Need;
    Unwritten(m.St(), a, va);
    var start, end := va, va + |src|;
    while start < end
      invariant va <= start <= end && Inv(m.St())
      invariant |m.free| - Need(m.St(), a, start, end) == |old(m.free)| - Need(old(m.St()), a, va, end)
      invariant Wrote(old(m.St()), m.St(), a, va, src[..start - va]) && SameRights(old(m.St()), m.St())
    {
      var chunk := NextWritable(m, a, start, end, old(m.St()), va, src[..start - va]);
      if chunk.None? { return false; }
      var n := chunk.value.hi - chunk.value.lo;
      ghost var r := m.St();
      WriteChunk(m, a, start, chunk.value, src[start - va..start - va + n]);
      AppendWrote(old(m.St()), r, m.St(), a, va, src[..start - va], src[start - va..start - va + n]);
      RightsChained(old(m.St()), r, m.St());
      NeedKept(r, m.St(), a, start + n, end);
      assert src[..start - va] + src[start - va..start - va + n] == src[..start + n - va];
      start := start + n;
    }
    NoNeed(m.St(), a, end);
    assert src[..start - va] == src;
    ok := true;
  }

  lemma NoNeed(s: State, a: nat, end: nat)
    ensures Need(s, a, end, end) == 0
  {
  }

  /** `copy_u2u_bytes` between two different tables: the two chunks need not end together. */
  method CopyUserToUser(m: Machine, da: nat, dva: nat, sa: nat, sva: nat, len: nat)
    returns (ok: bool, ghost data: seq<byte>)
    requires Inv(m.St()) && da != sa
    requires Validated(m.St(), da, dva, dva + len, {U, W}) && Validated(m.St(), sa, sva, sva + len, {U, R})
    modifies m`mem, m`count, m`free, m`leaves
    ensures ok <==> Need(old(m.St()), da, dva, dva + len) <= |old(m.free)|
    ensures ok ==> |data| == len && Reads(old(m.St()), sa, sva, data)
    ensures ok ==> Inv(m.St()) && Wrote(old(m.St()), m.St(), da, dva, data) && SameRights(old(m.St()), m.St())
    ensures ok ==> |m.free| == |old(m.free)| - Need(old(m.St()), da, dva, dva + len)
  {
    hide Inv, Wrote, SameRights, Reads, Need, At, Validated, SameLeaf;
    ghost var s0 := m.St();
    AtEmpty(m.leaves, da, dva, W);
    AtEmpty(m.leaves, sa, sva, U);
    Unwritten(s0, da, dva);
    ReadsNothing(s0, sa, sva);
    data := [];
    var dstStart, srcStart := dva, sva;
    var dst, src := Slice(0, 0, 0), Slice(0, 0, 0);
    var total := 0;
    while total < len
      invariant total <= len && |data| == total && dst.lo <= dst.hi && src.lo <= src.hi
      invariant dstStart == dva + total + (dst.hi - dst.lo) <= dva + len
      invariant srcStart == sva + total + (src.hi - src.lo) <= sva + len
      invariant Inv(m.St())
      invariant |m.free| - Need(m.St(), da, dstStart, dva + len) == |s0.free| - Need(s0, da, dva, dva + len)
      invariant At(m.leaves, dst, da, dva + total, W) && At(m.leaves, src, sa, sva + total, U)
      invariant Wrote(s0, m.St(), da, dva, data) && SameRights(s0, m.St()) && Reads(s0, sa, sva, data)
    {
      if dst.lo == dst.hi {
        ghost var leaves := m.leaves;
        var chunk := NextWritable(m, da, dstStart, dva + len, s0, dva, data);
        if chunk.None? { return false, data; }
        AtOther(leaves, m.leaves, src, sa, sva + total, U);
        dst := chunk.value;
        dstStart := dstStart + (dst.hi - dst.lo);
      }
      if src.lo == src.hi {
        src := NextReadable(m, sa, srcStart, sva + len, s0, sva);
        srcStart := srcStart + (src.hi - src.lo);
      }
      var n := Min(dst.hi - dst.lo, src.hi - src.lo);
      ghost var r := m.St();
      ghost var piece := CopyPiece(m, da, dva, dst, sa, sva, src, n, s0, data);
      NeedKept(r, m.St(), da, dstStart, dva + len);
      data := data + piece;
      AtNext(m.leaves, dst, da, dva + total, W, n);
      AtNext(m.leaves, src, sa, sva + total, U, n);
      dst, src := dst.(lo := dst.lo + n), src.(lo := src.lo + n);
      total := total + n;
    }
    NoNeed(m.St(), da, dva + len);
    ok := true;
  }

  lemma ReadsNothing(s: State, a: nat, va: nat)
    ensures Reads(s, a, va, [])
  {
  }

  lemma AppendWrote(s: State, r: State, t: State, a: nat, va: nat, data: seq<byte>, piece: seq<byte>)
    requires Wrote(s, r, a, va, data) && (va + |data|) % PAGE_SIZE + |piece| <= PAGE_SIZE
    requires var k := KeyOf(a, va + |data|);
      && OthersKept(r, t, k) && k in r.leaves && k in t.leaves && |PageAt(r, k).bytes| == PAGE_SIZE
      && PageAt(t, k).bytes == Splice(PageAt(r, k).bytes, (va + |data|) % PAGE_SIZE, piece)
    ensures Wrote(s, t, a, va, data + piece)
  {
    assert (data + piece)[..|data|] == data && (data + piece)[|data|..|data| + |piece|] == piece;
    assert (data + piece)[..|data| + |piece|] == data + piece;
    WroteNext(s, r, t, a, va, data + piece, |data|, |piece|);
  }
}
