/** The operations on address spaces as they run: fields updated in place, loops over ranges. */
module AddressSpaces {
  import opened Options
  import opened Common
  import opened VirtualMemory
  import opened CopyOnWrite

  /** A borrowed piece `lo..hi` of a frame. */
  datatype Slice = Slice(frame: nat, lo: nat, hi: nat)

  /** Page number `n` as its three level indices. */
  function VpnOf(n: nat): Vpn {
    Vpn(n / 0x40000, n / 512 % 512, n % 512)
  }

  function KeyOf(a: nat, va: nat): Key {
    Key(a, VpnOf(va / PAGE_SIZE))
  }

  /** The byte space `a` reads at address `va`. */
  ghost function ByteAt(s: State, a: nat, va: nat): Option<byte> {
    var k := KeyOf(a, va);
    if k in s.leaves && va % PAGE_SIZE < |PageAt(s, k).bytes| then Some(PageAt(s, k).bytes[va % PAGE_SIZE]) else None
  }

  function PageNo(v: Vpn): nat {
    v.i2 * 0x40000 + v.i1 * 512 + v.i0
  }

  lemma PageNoOf(n: nat)
    ensures PageNo(VpnOf(n)) == n && (n < 0x8000000 ==> VpnOk(VpnOf(n)))
  {
  }

  lemma VpnInjective(m: nat, n: nat)
    requires VpnOf(m) == VpnOf(n)
    ensures m == n
  {
    PageNoOf(m);
    PageNoOf(n);
  }

  predicate InRange(k: Key, a: nat, lo: nat, hi: nat) {
    k.asid == a && lo <= PageNo(k.vpn) < hi
  }

  /** Page `l` now is what page `k` was: mapped alike, same bytes, same permissions. */
  ghost predicate Copied(s: State, t: State, k: Key, l: Key) {
    (l in t.leaves <==> k in s.leaves) && (k in s.leaves ==> PageAt(t, l) == PageAt(s, k))
  }

  /** The pages `lo..hi` of `src` were copied to `dst` and every other page of every space is as before. */
  ghost predicate ClonedRange(s: State, t: State, src: nat, dst: nat, lo: nat, hi: nat) {
    && (forall n {:trigger VpnOf(n)} :: lo <= n < hi ==> Copied(s, t, Key(src, VpnOf(n)), Key(dst, VpnOf(n))))
    && KeptOutside(s, t, dst, lo, hi)
  }

  ghost predicate KeptOutside(s: State, t: State, a: nat, lo: nat, hi: nat) {
    forall k {:trigger Kept(s, t, k)} :: !InRange(k, a, lo, hi) ==> Kept(s, t, k)
  }

  lemma RangeExtended(s: State, r: State, t: State, a: nat, lo: nat, n: nat)
    requires lo <= n && KeptOutside(s, r, a, lo, n) && OthersKept(r, t, Key(a, VpnOf(n)))
    ensures KeptOutside(s, t, a, lo, n + 1)
  {
    PageNoOf(n);
    forall k | !InRange(k, a, lo, n + 1) ensures Kept(s, t, k) { assert Kept(s, r, k) && Kept(r, t, k); }
  }

  lemma CloneExtended(s: State, r: State, t: State, src: nat, dst: nat, lo: nat, n: nat)
    requires src != dst && lo <= n && ClonedRange(s, r, src, dst, lo, n)
    requires OthersKept(r, t, Key(dst, VpnOf(n))) && Copied(r, t, Key(src, VpnOf(n)), Key(dst, VpnOf(n)))
    ensures ClonedRange(s, t, src, dst, lo, n + 1)
  {
    RangeExtended(s, r, t, dst, lo, n);
    assert Kept(s, r, Key(src, VpnOf(n)));
    forall m | lo <= m < n + 1 ensures Copied(s, t, Key(src, VpnOf(m)), Key(dst, VpnOf(m))) {
      if m < n {
        PageNoOf(m);
        PageNoOf(n);
        assert Kept(r, t, Key(dst, VpnOf(m)));
      }
    }
  }

  // ----- what a clone needs -----

  /** Table pages that must be allocated before `l` can name the page of `k`. */
  ghost function NeedAt(s: State, k: Key, l: Key): set<Node> {
    if k in s.leaves then {L1(l), L0(l)} - s.tables.Keys else {}
  }

  /** The same for the pages `lo..n`, each table page once. */
  ghost function NeedTo(s: State, src: nat, dst: nat, lo: nat, n: nat): set<Node>
    decreases n
  {
    if n <= lo then {} else NeedTo(s, src, dst, lo, n - 1) + NeedAt(s, Key(src, VpnOf(n - 1)), Key(dst, VpnOf(n - 1)))
  }

  lemma {:induction false} NeedGrows(s: State, src: nat, dst: nat, lo: nat, n: nat, m: nat)
    requires n <= m
    ensures NeedTo(s, src, dst, lo, n) <= NeedTo(s, src, dst, lo, m)
    ensures |NeedTo(s, src, dst, lo, n)| <= |NeedTo(s, src, dst, lo, m)|
    decreases m
  {
    hide VpnOf, NeedAt;
    var x, y := NeedTo(s, src, dst, lo, n), NeedTo(s, src, dst, lo, m);
    if n < m {
      NeedGrows(s, src, dst, lo, n, m - 1);
    }
    assert y == x + (y - x);
  }

  /** Cloning one more page allocates exactly the table pages that page adds to the need. */
  lemma NeedStep(s: State, r: State, src: nat, dst: nat, lo: nat, n: nat)
    requires lo <= n && Key(src, VpnOf(n)) in s.leaves && r.tables.Keys == s.tables.Keys + NeedTo(s, src, dst, lo, n)
    ensures var l := Key(dst, VpnOf(n));
      && |NeedTo(s, src, dst, lo, n + 1)| == |NeedTo(s, src, dst, lo, n)| + Missing(r, l)
      && r.tables.Keys + {L1(l), L0(l)} == s.tables.Keys + NeedTo(s, src, dst, lo, n + 1)
  {
    var l := Key(dst, VpnOf(n));
    TwoMore(s.tables.Keys, NeedTo(s, src, dst, lo, n), L1(l), L0(l));
  }

  lemma TwoMore(t: set<Node>, x: set<Node>, a: Node, b: Node)
    requires a != b
    ensures var y := x + ({a, b} - t);
      && |y| == |x| + (if a in t + x then 0 else 1) + (if b in t + x then 0 else 1)
      && t + x + {a, b} == t + y
  {
    var u := x + ({a} - t);
    OneMore(t, x, a);
    OneMore(t, u, b);
    Regrouped(t, x, a, b);
  }

  lemma Regrouped(t: set<Node>, x: set<Node>, a: Node, b: Node)
    requires a != b
    ensures x + ({a, b} - t) == (x + ({a} - t)) + ({b} - t) && t + x + {a, b} == t + (x + ({a, b} - t))
    ensures b in t + (x + ({a} - t)) <==> b in t + x
  {
  }

  lemma OneMore(t: set<Node>, x: set<Node>, a: Node)
    ensures |x + ({a} - t)| == |x| + (if a in t + x then 0 else 1)
  {
    if a in t + x { assert x + ({a} - t) == x; } else { assert x + ({a} - t) == x + {a}; }
  }

  /** The first page from `n` on that is mapped but not the user's: the clone stops there. */
  ghost function Stop(leaves: map<Key, Pte>, src: nat, n: nat, hi: nat): (r: nat)
    requires n <= hi
    ensures n <= r <= hi && (r < hi ==> Key(src, VpnOf(r)) in leaves && U !in leaves[Key(src, VpnOf(r))].flags)
    ensures forall m {:trigger VpnOf(m)} ::
      n <= m < r && Key(src, VpnOf(m)) in leaves ==> U in leaves[Key(src, VpnOf(m))].flags
    decreases hi - n
  {
    if n == hi then hi
    else if Key(src, VpnOf(n)) in leaves && U !in leaves[Key(src, VpnOf(n))].flags then n
    else Stop(leaves, src, n + 1, hi)
  }

  /** `k` lies in the part of the address space translated through table page `n`. */
  predicate Under(k: Key, n: Node) {
    match n
    case Root(a) => k.asid == a
    case Mid(a, i2) => k.asid == a && k.vpn.i2 == i2
    case Low(a, i2, i1) => k.asid == a && k.vpn.i2 == i2 && k.vpn.i1 == i1
  }

  /** Table page `m` is `n` or hangs below it. */
  predicate UnderNode(m: Node, n: Node) {
    || m == n
    || (n.Root? && m.asid == n.asid)
    || (n.Mid? && m.Low? && m.asid == n.asid && m.i2 == n.i2)
  }

  ghost predicate KeptElse(s: State, t: State, n: Node) {
    forall k {:trigger Kept(s, t, k)} :: if Under(k, n) then k !in t.leaves else Kept(s, t, k)
  }

  predicate Gone(k: Key, n: Node, i: nat) {
    Under(k, n) && ChildIndex(k, n) < i
  }

  predicate GoneNode(m: Node, n: Node, i: nat) {
    m != n && UnderNode(m, n) && NodeIndex(m, n) < i
  }

  /** Everything below the first `i` entries of `n` is gone and nothing else changed. */
  ghost predicate Cleared(s: State, t: State, n: Node, i: nat) {
    && (forall k {:trigger Kept(s, t, k)} :: if Gone(k, n, i) then k !in t.leaves else Kept(s, t, k))
    && (forall m {:trigger m in t.tables} :: m in t.tables <==> m in s.tables && !GoneNode(m, n, i))
  }

  function ChildIndex(k: Key, n: Node): nat {
    match n
    case Root(_) => k.vpn.i2
    case Mid(_, _) => k.vpn.i1
    case Low(_, _, _) => k.vpn.i0
  }

  function NodeIndex(m: Node, n: Node): nat {
    if n.Root? then (if m.Root? then 0 else m.i2) else if n.Mid? && m.Low? then m.i1 else 0
  }

  function Child(n: Node, i: nat): Node
    requires !n.Low?
  {
    match n
    case Root(a) => Mid(a, i)
    case Mid(a, i2) => Low(a, i2, i)
  }

  lemma NothingCleared(s: State, n: Node)
    ensures Cleared(s, s, n, 0)
  {
    forall k ensures Kept(s, s, k) && !Gone(k, n, 0) { assert ChildIndex(k, n) >= 0; }
    forall m ensures !GoneNode(m, n, 0) { assert NodeIndex(m, n) >= 0; }
  }

  lemma EntryCleared(s: State, r: State, t: State, n: Node, i: nat)
    requires n.Low? && Cleared(s, r, n, i) && t.tables.Keys == r.tables.Keys
    requires OthersKept(r, t, Key(n.asid, Vpn(n.i2, n.i1, i))) && Key(n.asid, Vpn(n.i2, n.i1, i)) !in t.leaves
    ensures Cleared(s, t, n, i + 1)
  {
    forall k ensures if Gone(k, n, i + 1) then k !in t.leaves else Kept(s, t, k) {
      assert Kept(s, r, k) || Gone(k, n, i);
      assert k != Key(n.asid, Vpn(n.i2, n.i1, i)) ==> Kept(r, t, k);
    }
    forall m
      ensures m in t.tables <==> m in s.tables && !GoneNode(m, n, i + 1)
    {
      assert m in r.tables <==> m in t.tables;
    }
  }

  lemma ChildCleared(s: State, r: State, t: State, n: Node, i: nat)
    requires !n.Low? && Cleared(s, r, n, i) && KeptElse(r, t, Child(n, i))
    requires forall m {:trigger m in t.tables} :: m in t.tables <==> m in r.tables && !UnderNode(m, Child(n, i))
    ensures Cleared(s, t, n, i + 1)
  {
    forall k ensures if Gone(k, n, i + 1) then k !in t.leaves else Kept(s, t, k) {
      assert Kept(s, r, k) || Gone(k, n, i);
      assert Kept(r, t, k) || Under(k, Child(n, i));
      assert Gone(k, n, i + 1) <==> Gone(k, n, i) || Under(k, Child(n, i));
    }
    forall m ensures m in t.tables <==> m in s.tables && !GoneNode(m, n, i + 1) {
      assert m in r.tables <==> m in s.tables && !GoneNode(m, n, i);
      assert GoneNode(m, n, i + 1) <==> GoneNode(m, n, i) || UnderNode(m, Child(n, i));
    }
  }

  /** Below a missing table page there is nothing. */
  lemma NoneBelow(s: State, n: Node)
    requires Inv(s) && n !in s.tables
    ensures KeptElse(s, s, n) && forall m {:trigger m in s.tables} :: m in s.tables ==> !UnderNode(m, n)
  {
    forall k ensures if Under(k, n) then k !in s.leaves else Kept(s, s, k) {
      if k in s.leaves { assert HasPath(s.tables, k); }
    }
    forall m | m in s.tables ensures !UnderNode(m, n) {
      assert NodeOk(s.tables, m) && NodeOk(s.tables, Parent(m));
    }
  }

  lemma AllCleared(s: State, t: State, n: Node)
    requires Inv(t) && Cleared(s, t, n, 512) && n in s.tables
    ensures n in t.tables && Childless(t.leaves, t.tables, n) && KeptElse(s, t, n)
    ensures forall m {:trigger m in t.tables} :: m in t.tables <==> m in s.tables && (m == n || !UnderNode(m, n))
  {
    forall k ensures if Under(k, n) then k !in t.leaves else Kept(s, t, k) {
      assert Kept(s, t, k) || Gone(k, n, 512);
      if k in t.leaves { assert HasPath(t.tables, k); }
    }
    forall k | k in t.leaves ensures L0(k) != n && L1(k) != n && Root(k.asid) != n { assert Kept(s, t, k) || true; }
    forall m | m in t.tables ensures m == n || !UnderNode(m, n) {
      assert NodeOk(t.tables, m) && NodeOk(t.tables, Parent(m));
    }
  }

  class Machine {
    const heap: set<nat>
    const rom: map<nat, Page>
    var mem: map<nat, Page>
    var count: map<nat, nat>
    var free: seq<nat>
    var leaves: map<Key, Pte>
    var tables: map<Node, nat>

    ghost function St(): State
      reads this
    {
      State(heap, mem, rom, count, free, leaves, tables)
    }

    /** `Page::alloc`, `Page::alloc_zeroed` (`c == 1`) and `alloc_non_shareable_page`. */
    method AllocPage(c: nat, content: Page) returns (f: Option<nat>)
      requires FreeListOk(heap, count, free)
      modifies this`mem, this`count, this`free
      ensures St() == Take(old(St()), c, content).s
      ensures f == if old(free) == [] then None else Some(old(free[0]))
      ensures f.None? <==> Take(old(St()), c, content).out.Failed?
      ensures f.Some? <==> Take(old(St()), c, content).out.Done?
      ensures c > 0 ==> FreeListOk(heap, count, free)
    {
      if free == [] { return None; }
      if c > 0 { Popped(heap, count, free, c); }
      var page := free[0];
      assert count[page] == 0;
      free := free[1..];
      mem := mem[page := content];
      count := count[page := c];
      f := Some(page);
    }

    /** `Page::drop`. */
    method DropPage(f: nat)
      requires f in count && count[f] > 0
      modifies this`mem, this`count, this`free
      ensures Release(old(St()), f) == Result(St(), Done)
    {
      var freeIt;
      if count[f] == NON_SHAREABLE {
        count := count[f := 0];
        freeIt := true;
      } else {
        var prev := count[f];
        count := count[f := prev - 1];
        freeIt := prev <= 1;
      }
      if freeIt {
        mem := mem[f := Fill(1)];
        free := [f] + free;
      }
    }

    /** `PtEntry::request_user_write`. */
    method BreakShare(k: Key) returns (out: Outcome)
      requires Inv(St())
      modifies this`mem, this`count, this`free, this`leaves
      ensures Result(St(), out) == RequestUserWrite(old(St()), k)
    {
      if k !in leaves { return Failed; }
      var f, flags := leaves[k].frame, leaves[k].flags;
      if {U, W} <= flags { return Done; }
      if !({U, C} <= flags) { return Failed; }
      CowEntry(St(), k);
      LeafFrame(St(), k);
      flags := flags - {C} + {W};
      if count[f] == 1 {
        leaves := leaves[k := Pte(f, flags)];
        return Done;
      }
      assert mem[f] == Contents(St(), f) by { assert Sized(St().mem, f); }
      var copy := AllocPage(1, mem[f]);
      if copy.None? {
        DropPage(f);
        return Failed;
      }
      leaves := leaves[k := Pte(copy.value, flags)];
      FreeUnnamed(old(St()), old(free[0]));
      DropPage(f);
      out := Done;
    }

    /** `set_page_table` with a new table page, unless the entry is valid already. */
    method EnsureTablePage(n: Node) returns (out: Outcome)
      requires FreeListOk(heap, count, free)
      modifies this`mem, this`count, this`free, this`tables
      ensures Result(St(), out) == EnsureTable(old(St()), n) && FreeListOk(heap, count, free)
    {
      if n in tables { return Done; }
      var page := AllocPage(NON_SHAREABLE, Fill(0));
      if page.None? { return Failed; }
      tables := tables[n := page.value];
      out := Done;
    }

    /** `find_or_create_leaf(0, va)`. */
    method FindOrCreateLeaf(k: Key) returns (out: Outcome)
      requires FreeListOk(heap, count, free) && Root(k.asid) in tables
      modifies this`mem, this`count, this`free, this`tables
      ensures Result(St(), out) == EnsurePath(old(St()), k)
      ensures old(Inv(St())) && VpnOk(k.vpn) ==>
        Inv(St()) && AllKept(old(St()), St()) && (out.Done? <==> Missing(old(St()), k) <= |old(free)|) &&
        (out.Done? ==> HasPath(tables, k))
    {
      if Inv(St()) && VpnOk(k.vpn) { EnsurePathOk(St(), k); }
      hide Inv, AllKept;
      out := EnsureTablePage(L1(k));
      if out.Done? { out := EnsureTablePage(L0(k)); }
    }

    /** `clone_pages_from` over the pages `lo..hi`. It takes one free frame for each table page the child still
        lacks, up to the first page that is not the user's, and keeps the counts right exactly when there are that
        many. */
    method ClonePagesFrom(src: nat, dst: nat, lo: nat, hi: nat) returns (out: Outcome)
      requires Inv(St()) && src != dst && Root(dst) in tables && lo <= hi <= 0x8000000
      requires forall k :: InRange(k, dst, lo, hi) ==> k !in leaves
      modifies this`mem, this`count, this`free, this`leaves, this`tables
      ensures var stop := Stop(old(leaves), src, lo, hi); var need := |NeedTo(old(St()), src, dst, lo, stop)|;
        && (Inv(St()) <==> need <= |old(free)|)
        && (out.Done? <==> need <= |old(free)| && stop == hi)
        && (need <= |old(free)| ==> |free| == |old(free)| - need && KeptOutside(old(St()), St(), dst, lo, hi))
      ensures out.Done? ==> ClonedRange(old(St()), St(), src, dst, lo, hi)
      ensures !out.Panicked?
    {
      hide Inv, CloneLeaf, VpnOf, ClonedRange, KeptOutside, OthersKept, Copied, Missing, NeedTo;
      ghost var stop := Stop(leaves, src, lo, hi);
      NothingCloned(St(), src, dst, lo);
      var v := lo;
      while v < hi
        invariant lo <= v <= stop <= hi
        invariant Inv(St()) && Root(dst) in tables && ClonedRange(old(St()), St(), src, dst, lo, v)
        invariant tables.Keys == old(tables).Keys + NeedTo(old(St()), src, dst, lo, v)
        invariant |free| == |old(free)| - |NeedTo(old(St()), src, dst, lo, v)|
      {
        var k, l := Key(src, VpnOf(v)), Key(dst, VpnOf(v));
        NotClonedYet(old(St()), St(), src, dst, lo, v, hi);
        ghost var s := St();
        if k in leaves {
          if U !in leaves[k].flags { return Failed; }
          NeedStep(old(St()), s, src, dst, lo, v);
          NeedGrows(old(St()), src, dst, lo, v + 1, stop);
          out := CloneOne(k, l);
          if !out.Done? { return; }
        } else {
          Unmapped(old(St()), s, src, dst, lo, v);
        }
        CloneExtended(old(St()), s, St(), src, dst, lo, v);
        v := v + 1;
      }
      AllOutside(old(St()), St(), src, dst, lo, hi);
      out := Done;
    }

    /** One page: protect the parent's entry, count the reference, map it in the child. */
    method CloneOne(k: Key, l: Key) returns (out: Outcome)
      requires Inv(St()) && k in leaves && l !in leaves && U in leaves[k].flags && k.vpn == l.vpn
      requires Root(l.asid) in tables && VpnOk(l.vpn)
      modifies this`mem, this`count, this`free, this`leaves, this`tables
      ensures Result(St(), out) == CloneLeaf(old(St()), k, l) && !out.Panicked?
      ensures Inv(St()) <==> Missing(old(St()), l) <= |old(free)|
      ensures out.Done? <==> Missing(old(St()), l) <= |old(free)|
      ensures out.Done? ==> OthersKept(old(St()), St(), l) && Copied(old(St()), St(), k, l) && Root(l.asid) in tables
      ensures out.Done? ==>
        |free| == |old(free)| - Missing(old(St()), l) && tables.Keys == old(tables).Keys + {L1(l), L0(l)}
    {
      hide Inv, EnsurePath, CloneLeaf, MakeCopyOnWrite, FreeListOk, OthersKept, Copied, Missing, AllKept;
      ghost var s := St();
      CloneEffect(s, k, l);
      FreeList(s);
      CloneByPath(s, k, l);
      var f, cow := leaves[k].frame, MakeCopyOnWrite(leaves[k].flags);
      leaves := leaves[k := Pte(f, cow)];
      Recounted(heap, count, free, f, count[f] + 1);
      count := count[f := count[f] + 1];
      out := FindOrCreateLeaf(l);
      if out.Done? { leaves := leaves[l := Pte(f, cow + {V})]; }
    }

    /** `PtEntry::free` on a leaf. */
    method FreeEntry(k: Key)
      requires Inv(St())
      modifies this`mem, this`count, this`free, this`leaves
      ensures Result(St(), Done) == FreeLeaf(old(St()), k)
    {
      if k !in leaves { return; }
      ghost var s := St();
      var f := leaves[k].frame;
      leaves := leaves - {k};
      if f in heap {
        LeafFrame(s, k);
        DropPage(f);
      }
    }

    /** `unmap_range` over the pages `lo..hi`. */
    method UnmapRange(a: nat, lo: nat, hi: nat)
      requires Inv(St()) && lo <= hi
      modifies this`mem, this`count, this`free, this`leaves
      ensures Inv(St()) && KeptOutside(old(St()), St(), a, lo, hi)
      ensures forall n {:trigger VpnOf(n)} :: lo <= n < hi ==> Key(a, VpnOf(n)) !in leaves
    {
      hide FieldsOk, FreeLeaf;
      for v := lo to hi
        invariant Inv(St()) && KeptOutside(old(St()), St(), a, lo, v)
        invariant forall n {:trigger VpnOf(n)} :: lo <= n < v ==> Key(a, VpnOf(n)) !in leaves
      {
        ghost var s := St();
        var k := Key(a, VpnOf(v));
        FreeEntryEffect(s, k);
        FreeEntry(k);
        forall n | lo <= n < v ensures Key(a, VpnOf(n)) !in leaves {
          PageNoOf(n);
          PageNoOf(v);
          assert Kept(s, St(), Key(a, VpnOf(n)));
        }
        RangeExtended(old(St()), s, St(), a, lo, v);
      }
    }

    /** `PageTableEntries::free` followed by giving back the table page itself. */
    method FreeTablePage(n: Node)
      requires Inv(St()) && n in tables
      modifies this`mem, this`count, this`free, this`leaves, this`tables
      ensures Inv(St()) && KeptElse(old(St()), St(), n)
      ensures forall m {:trigger m in tables} :: m in tables <==> m in old(tables) && !UnderNode(m, n)
      decreases match n case Root(_) => 2 case Mid(_, _) => 1 case Low(_, _, _) => 0
    {
      hide FieldsOk, FreeLeaf, Release;
      NothingCleared(St(), n);
      for i := 0 to 512
        invariant Inv(St()) && Cleared(old(St()), St(), n, i)
      {
        ghost var s := St();
        if n.Low? {
          var k := Key(n.asid, Vpn(n.i2, n.i1, i));
          FreeEntryEffect(s, k);
          FreeEntry(k);
          EntryCleared(old(St()), s, St(), n, i);
        } else {
          if Child(n, i) in tables { FreeTablePage(Child(n, i)); } else { NoneBelow(s, Child(n, i)); }
          ChildCleared(old(St()), s, St(), n, i);
        }
      }
      ghost var s := St();
      AllCleared(old(St()), s, n);
      TableFrame(s, n);
      var f := tables[n];
      tables := tables - {n};
      DropPage(f);
      FreeTableEffect(s, n);
      forall k ensures if Under(k, n) then k !in leaves else Kept(old(St()), St(), k) {
        assert Kept(s, St(), k);
        assert Under(k, n) || Kept(old(St()), s, k);
      }
    }
  }

  /** `Drop` of every page table: every frame comes back. */
  method DropSpaces(m: Machine, spaces: set<nat>)
    requires Inv(m.St()) && forall a {:trigger Root(a)} :: Root(a) in m.tables <==> a in spaces
    modifies m
    ensures Inv(m.St()) && m.tables == map[] && m.leaves == map[]
    ensures |m.free| == |m.heap| && forall f :: f in m.heap <==> f in m.free
  {
    hide FieldsOk;
    var left := spaces;
    while left != {}
      invariant Inv(m.St()) && forall a {:trigger Root(a)} :: Root(a) in m.tables <==> a in left
      decreases |left|
    {
      var a :| a in left;
      m.FreeTablePage(Root(a));
      left := left - {a};
    }
    NoTables(m.St());
    AllFramesReturn(m.St());
  }

  lemma NoTables(s: State)
    requires Inv(s) && forall a {:trigger Root(a)} :: Root(a) !in s.tables
    ensures s.tables == map[]
  {
    forall n ensures n !in s.tables {
      if n in s.tables { RootThere(s, n); }
    }
  }

  lemma RootThere(s: State, n: Node)
    requires Inv(s) && n in s.tables
    ensures Root(n.asid) in s.tables
  {
    assert NodeOk(s.tables, n) && NodeOk(s.tables, Parent(n));
  }

  lemma FreeList(s: State)
    requires Inv(s)
    ensures FreeListOk(s.heap, s.count, s.free)
  {
  }

  lemma NothingCloned(s: State, src: nat, dst: nat, lo: nat)
    ensures ClonedRange(s, s, src, dst, lo, lo) && NeedTo(s, src, dst, lo, lo) == {}
  {
  }

  /** Up to page `n` the clone has touched neither page `n` of the source nor that of the child. */
  lemma NotClonedYet(s: State, t: State, src: nat, dst: nat, lo: nat, n: nat, hi: nat)
    requires src != dst && lo <= n < hi <= 0x8000000 && ClonedRange(s, t, src, dst, lo, n)
    requires forall k :: InRange(k, dst, lo, hi) ==> k !in s.leaves
    ensures var k, l := Key(src, VpnOf(n)), Key(dst, VpnOf(n));
      && VpnOk(l.vpn) && l !in t.leaves && (k in t.leaves <==> k in s.leaves)
      && (k in t.leaves ==> (U in t.leaves[k].flags <==> U in s.leaves[k].flags))
      && KeptOutside(s, t, dst, lo, hi)
  {
    var k, l := Key(src, VpnOf(n)), Key(dst, VpnOf(n));
    PageNoOf(n);
    assert Kept(s, t, k) && Kept(s, t, l);
    if k in t.leaves {
      assert PageAt(t, k).flags == PageAt(s, k).flags;
      assert U in PageAt(t, k).flags <==> U in t.leaves[k].flags;
      assert U in PageAt(s, k).flags <==> U in s.leaves[k].flags;
    }
    WiderKept(s, t, dst, lo, n, hi);
  }

  lemma Unmapped(s: State, t: State, src: nat, dst: nat, lo: nat, n: nat)
    requires lo <= n && Key(src, VpnOf(n)) !in s.leaves && Key(src, VpnOf(n)) !in t.leaves
    requires Key(dst, VpnOf(n)) !in t.leaves
    ensures OthersKept(t, t, Key(dst, VpnOf(n))) && Copied(t, t, Key(src, VpnOf(n)), Key(dst, VpnOf(n)))
    ensures NeedTo(s, src, dst, lo, n + 1) == NeedTo(s, src, dst, lo, n)
  {
  }

  lemma AllOutside(s: State, t: State, src: nat, dst: nat, lo: nat, hi: nat)
    requires ClonedRange(s, t, src, dst, lo, hi)
    ensures KeptOutside(s, t, dst, lo, hi)
  {
  }

  lemma WiderKept(s: State, t: State, a: nat, lo: nat, n: nat, hi: nat)
    requires KeptOutside(s, t, a, lo, n) && n <= hi
    ensures KeptOutside(s, t, a, lo, hi)
  {
    forall k | !InRange(k, a, lo, hi) ensures Kept(s, t, k) { assert !InRange(k, a, lo, n); }
  }

  /** With the frames for the child's tables the page is shared; without, the clone fails and the reference already
      counted is lost. */
  lemma CloneEffect(s: State, k: Key, l: Key)
    requires Inv(s) && k in s.leaves && l !in s.leaves && U in s.leaves[k].flags && k.vpn == l.vpn
    requires Root(l.asid) in s.tables && VpnOk(l.vpn)
    ensures var r := CloneLeaf(s, k, l); var f := s.leaves[k].frame;
      && f in s.count && s.count[f] != NON_SHAREABLE && 0 < s.count[f] && f !in s.free && !r.out.Panicked?
      && (Inv(r.s) <==> Missing(s, l) <= |s.free|) && (r.out.Done? <==> Missing(s, l) <= |s.free|)
      && (r.out.Done? ==> OthersKept(s, r.s, l) && Copied(s, r.s, k, l) && Root(l.asid) in r.s.tables)
      && (r.out.Done? ==> |r.s.free| == |s.free| - Missing(s, l) && r.s.tables.Keys == s.tables.Keys + {L1(l), L0(l)})
  {
    assert EntryOk(s.heap, s.leaves[k]);
    hide FieldsOk, CloneLeaf;
    LeafFrame(s, k);
    if Missing(s, l) <= |s.free| { CloneLeafOk(s, k, l); } else { CloneRunsOut(s, k, l); }
  }

  /** The parent's entry protected and the new reference counted, before the child's path is built. */
  ghost function Lent(s: State, k: Key): State
    requires k in s.leaves && s.leaves[k].frame in s.count
  {
    Protected(s, k).(count := s.count[s.leaves[k].frame := s.count[s.leaves[k].frame] + 1])
  }

  lemma CloneByPath(s: State, k: Key, l: Key)
    requires k in s.leaves && l !in s.leaves && U in s.leaves[k].flags
    requires s.leaves[k].frame in s.count && s.count[s.leaves[k].frame] != NON_SHAREABLE
    ensures var r := EnsurePath(Lent(s, k), l);
      var e := Pte(s.leaves[k].frame, MakeCopyOnWrite(s.leaves[k].flags) + {V});
      && r.s.leaves == Lent(s, k).leaves
      && CloneLeaf(s, k, l) == if r.out.Done? then Result(r.s.(leaves := r.s.leaves[l := e]), Done) else r
  {
    hide MakeCopyOnWrite;
    PathKeepsLeaves(Lent(s, k), l);
    hide EnsurePath;
  }

  lemma PathKeepsLeaves(s: State, l: Key)
    ensures EnsurePath(s, l).s.leaves == s.leaves
  {
  }

  lemma CloneRunsOut(s: State, k: Key, l: Key)
    requires Inv(s) && k in s.leaves && l !in s.leaves && U in s.leaves[k].flags
    requires Root(l.asid) in s.tables && VpnOk(l.vpn) && Missing(s, l) > |s.free|
    ensures CloneLeaf(s, k, l).out.Failed? && !Inv(CloneLeaf(s, k, l).s)
  {
    CloneLosesCount(s, k, l);
    assert EntryOk(s.heap, s.leaves[k]);
    hide FieldsOk, EnsurePath;
    LeafFrame(s, k);
    ParentProtected(s, k);
    EnsurePathOk(Protected(s, k), l);
    EnsurePathCommutes(Protected(s, k), l, s.leaves[k].frame, s.count[s.leaves[k].frame] + 1);
  }

  lemma FreeEntryEffect(s: State, k: Key)
    requires Inv(s)
    ensures var r := FreeLeaf(s, k);
      r.out.Done? && Inv(r.s) && OthersKept(s, r.s, k) && k !in r.s.leaves && r.s.tables == s.tables
  {
    if k in s.leaves { LeafRemoved(s, k); }
  }

  lemma FreeTableEffect(s: State, n: Node)
    requires Inv(s) && n in s.tables && Childless(s.leaves, s.tables, n)
    ensures var r := Release(s.(tables := s.tables - {n}), s.tables[n]);
      r.out.Done? && Inv(r.s) && AllKept(s, r.s) && r.s.tables == s.tables - {n}
  {
    hide FieldsOk;
    TableFrame(s, n);
    TableRemovedOk(s.heap, s.mem, s.count, s.free, s.leaves, s.tables, n, Fill(1));
  }
}
