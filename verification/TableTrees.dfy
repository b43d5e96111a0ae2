/** The trees that the tables and leaves of an address space spell out: what the walks over page tables find in them
    is what the operations on address spaces read and change. */
module TableTrees {
  import opened Options
  import opened Common
  import opened VirtualMemory
  import opened PageTree
  import AddressSpaces
  import PageValidation
  import UserCopy

  // ----- the tree of a space -----

  ghost function LeafEntry(s: State, k: Key): Entry {
    if k in s.leaves then Leaf(s.leaves[k].frame * PAGE_SIZE, s.leaves[k].flags) else Invalid
  }

  ghost function LowTable(s: State, a: nat, i2: nat, i1: nat): seq<Entry> {
    seq(512, i requires 0 <= i < 512 => LeafEntry(s, Key(a, Vpn(i2, i1, i))))
  }

  ghost function MidTable(s: State, a: nat, i2: nat): seq<Entry> {
    seq(512, i requires 0 <= i < 512 => if Low(a, i2, i) in s.tables then Table(LowTable(s, a, i2, i)) else Invalid)
  }

  ghost function TreeOf(s: State, a: nat): seq<Entry> {
    seq(512, i requires 0 <= i < 512 => if Mid(a, i) in s.tables then Table(MidTable(s, a, i)) else Invalid)
  }

  lemma TreeWf(s: State, a: nat)
    ensures Wf(TreeOf(s, a), 2)
  {
    forall i2: nat, i1: nat ensures Wf(LowTable(s, a, i2, i1), 0) {}
    forall i2: nat ensures Wf(MidTable(s, a, i2), 1) {}
  }

  // ----- the walk -----

  lemma Indices(x: nat)
    requires x < TOP
    ensures AddressSpaces.VpnOf(x / PAGE_SIZE) == Vpn(Idx(x, 2), Idx(x, 1), Idx(x, 0))
  {
    assert x / 0x1000 / 0x40000 == x / 0x4000_0000 && x / 0x1000 / 512 == x / 0x20_0000;
  }

  /** The page that holds address `x`, as a leaf of the tree. */
  ghost function ItemAt(s: State, a: nat, x: nat): Option<Item> {
    var k := AddressSpaces.KeyOf(a, x);
    if k in s.leaves then
      Some(Item(0, x / PAGE_SIZE * PAGE_SIZE, s.leaves[k].frame * PAGE_SIZE, s.leaves[k].flags))
    else None
  }

  lemma PageStart(base: nat, x: nat)
    requires TableBase(base, 0) && base <= x < TableEnd(base, 0)
    ensures Idx(x, 0) < 512 && Slot(base, 0, Idx(x, 0)) == x / PAGE_SIZE * PAGE_SIZE
  {
    IdxFinds(base, 0, x);
    var q, i := base / 0x20_0000, Idx(x, 0);
    assert Slot(base, 0, i) == 0x1000 * (512 * q + i);
  }

  lemma LowFinds(s: State, a: nat, i2: nat, i1: nat, base: nat, x: nat)
    requires TableBase(base, 0) && base <= x < TableEnd(base, 0) && Wf(LowTable(s, a, i2, i1), 0)
    requires AddressSpaces.KeyOf(a, x) == Key(a, Vpn(i2, i1, Idx(x, 0)))
    ensures Find(LowTable(s, a, i2, i1), 0, base, x) == ItemAt(s, a, x)
  {
    hide Idx, Slot, TableBase, AddressSpaces.KeyOf;
    PageStart(base, x);
  }

  lemma MidFinds(s: State, a: nat, i2: nat, base: nat, x: nat)
    requires Inv(s) && TableBase(base, 1) && base <= x < TableEnd(base, 1) && Wf(MidTable(s, a, i2), 1)
    requires AddressSpaces.KeyOf(a, x) == Key(a, Vpn(i2, Idx(x, 1), Idx(x, 0)))
    ensures Find(MidTable(s, a, i2), 1, base, x) == ItemAt(s, a, x)
  {
    hide Inv, Idx, Slot, TableBase, AddressSpaces.KeyOf, LowTable, Wf;
    IdxFinds(base, 1, x);
    var t, i1 := MidTable(s, a, i2), Idx(x, 1);
    SlotFacts(base, 1, i1);
    if Low(a, i2, i1) in s.tables {
      LowWf(s, a, i2, i1);
      LowFinds(s, a, i2, i1, Slot(base, 1, i1), x);
    } else {
      LeafHasPath(s, AddressSpaces.KeyOf(a, x));
    }
  }

  lemma LowWf(s: State, a: nat, i2: nat, i1: nat)
    ensures Wf(LowTable(s, a, i2, i1), 0)
  {
  }

  lemma LeafHasPath(s: State, k: Key)
    requires Inv(s)
    ensures k in s.leaves ==> L0(k) in s.tables && L1(k) in s.tables
  {
    assert k in s.leaves ==> HasPath(s.tables, k);
  }

  /** Walking the tree of a space from its root finds for every address the leaf the space has for its page. */
  lemma TreeFinds(s: State, a: nat, x: nat)
    requires Inv(s) && x < TOP
    ensures Wf(TreeOf(s, a), 2) && TableBase(0, 2) && x < TableEnd(0, 2)
    ensures Find(TreeOf(s, a), 2, 0, x) == ItemAt(s, a, x)
  {
    TreeWf(s, a);
    RootTable();
    Indices(x);
    hide Inv, Idx, Slot, TableBase, AddressSpaces.VpnOf, MidTable, Wf;
    IdxFinds(0, 2, x);
    var i2 := Idx(x, 2);
    SlotFacts(0, 2, i2);
    if Mid(a, i2) in s.tables {
      MidWf(s, a, i2);
      MidFinds(s, a, i2, Slot(0, 2, i2), x);
    } else {
      LeafHasPath(s, AddressSpaces.KeyOf(a, x));
    }
  }

  lemma MidWf(s: State, a: nat, i2: nat)
    ensures Wf(MidTable(s, a, i2), 1)
  {
    forall i1: nat ensures Wf(LowTable(s, a, i2, i1), 0) {}
  }

  // ----- validation -----

  /** `validate` on the tree of a space answers the question the user copies ask of the space. */
  lemma ServedIsValidated(s: State, a: nat, start: nat, end: nat, need: set<Flag>)
    requires Inv(s) && end <= TOP && C !in need
    ensures Wf(TreeOf(s, a), 2) && TableBase(0, 2)
    ensures PageValidation.Served(TreeOf(s, a), 2, 0, start, end, need) <==> UserCopy.Validated(s, a, start, end, need)
  {
    TreeWf(s, a);
    RootTable();
    hide Inv, Find, Wf, TreeOf, AddressSpaces.KeyOf;
    forall x: nat | start <= x < end
      ensures PageValidation.Accessible(TreeOf(s, a), 2, 0, x, need) <==> UserCopy.Allowed(s, a, x, need)
    {
      TreeFinds(s, a, x);
    }
  }

  // ----- the leaves of a range -----

  /** The mapped pages `lo..hi` of a space in ascending order. */
  ghost function PagesIn(s: State, a: nat, lo: nat, hi: nat): seq<Item>
    decreases hi - lo
  {
    if lo >= hi then []
    else
      var it := ItemAt(s, a, lo * PAGE_SIZE);
      (if it.Some? then [it.value] else []) + PagesIn(s, a, lo + 1, hi)
  }

  lemma ItemStart(s: State, a: nat, n: nat)
    ensures ItemAt(s, a, n * PAGE_SIZE).Some? ==> ItemAt(s, a, n * PAGE_SIZE).value.va == n * PAGE_SIZE
  {
    hide AddressSpaces.KeyOf;
  }

  lemma FirstOrLater(lo: nat, hi: nat, va: nat)
    requires lo < hi
    ensures va % PAGE_SIZE == 0 && lo * PAGE_SIZE <= va < hi * PAGE_SIZE <==>
      va == lo * PAGE_SIZE || (va % PAGE_SIZE == 0 && (lo + 1) * PAGE_SIZE <= va < hi * PAGE_SIZE)
  {
  }

  lemma {:induction false} PagesExact(s: State, a: nat, lo: nat, hi: nat, it: Item)
    ensures it in PagesIn(s, a, lo, hi) <==>
      it.va % PAGE_SIZE == 0 && lo * PAGE_SIZE <= it.va < hi * PAGE_SIZE && ItemAt(s, a, it.va) == Some(it)
    decreases hi - lo
  {
    hide ItemAt;
    if lo < hi {
      PagesExact(s, a, lo + 1, hi, it);
      ItemStart(s, a, lo);
      FirstOrLater(lo, hi, it.va);
    }
  }

  lemma {:induction false} PagesAscend(s: State, a: nat, lo: nat, hi: nat)
    ensures Ascending(PagesIn(s, a, lo, hi))
    decreases hi - lo
  {
    hide AddressSpaces.KeyOf;
    if lo < hi {
      PagesAscend(s, a, lo + 1, hi);
      forall x | x in PagesIn(s, a, lo + 1, hi)
        ensures (lo + 1) * PAGE_SIZE <= x.va
      {
        PagesExact(s, a, lo + 1, hi, x);
      }
    }
  }

  /** A list of leaves in ascending order is known by its members. */
  lemma {:induction false} SameLeaves(x: seq<Item>, y: seq<Item>)
    requires Ascending(x) && Ascending(y) && forall it :: it in x <==> it in y
    ensures x == y
    decreases |x|
  {
    HasMember(y);
    if x != [] {
      assert x[0] in x;
      var i :| 0 <= i < |y| && y[i] == x[0];
      assert y[0] in x;
      var j :| 0 <= j < |x| && x[j] == y[0];
      assert i == 0 && j == 0;
      forall it ensures it in x[1..] <==> it in y[1..] {
        TailMember(x, it);
        TailMember(y, it);
      }
      SameLeaves(x[1..], y[1..]);
    }
  }

  lemma HasMember(x: seq<Item>)
    ensures x != [] ==> exists it :: it in x
  {
    if x != [] { assert x[0] in x; }
  }

  lemma TailMember(x: seq<Item>, it: Item)
    requires Ascending(x) && x != []
    ensures it in x[1..] <==> it in x && it != x[0]
  {
    assert x == [x[0]] + x[1..];
    if it in x[1..] { var j :| 0 <= j < |x[1..]| && x[1..][j] == it; assert x[j + 1] == it; }
  }

  /** The iteration over the leaves of a range of pages visits the mapped pages of the space, in order, and its range
      assertion holds. */
  lemma LeavesArePages(s: State, a: nat, lo: nat, hi: nat)
    requires Inv(s) && hi * PAGE_SIZE <= TOP
    ensures Wf(TreeOf(s, a), 2)
    ensures Leaves(TreeOf(s, a), lo * PAGE_SIZE, hi * PAGE_SIZE) == PagesIn(s, a, lo, hi)
    ensures forall it ::
      it in Leaves(TreeOf(s, a), lo * PAGE_SIZE, hi * PAGE_SIZE) ==> lo * PAGE_SIZE <= it.va < hi * PAGE_SIZE
  {
    TreeWf(s, a);
    RootTable();
    hide Inv, Find, Wf, TreeOf, Leaves, PagesIn, Ascending;
    var x, y := Leaves(TreeOf(s, a), lo * PAGE_SIZE, hi * PAGE_SIZE), PagesIn(s, a, lo, hi);
    forall it
      ensures (it in x <==> it in y) && Ascending(x) && Ascending(y)
      ensures (it in y ==> lo * PAGE_SIZE <= it.va < hi * PAGE_SIZE)
    {
      LeavesExact(TreeOf(s, a), lo * PAGE_SIZE, hi * PAGE_SIZE, it);
      PagesExact(s, a, lo, hi, it);
      PagesAscend(s, a, lo, hi);
      if it.va < TOP { TreeFinds(s, a, it.va); }
      SamePage(s, a, lo, hi, it);
    }
    SameLeaves(x, y);
  }

  lemma SamePage(s: State, a: nat, lo: nat, hi: nat, it: Item)
    ensures ItemAt(s, a, it.va) == Some(it) ==>
      it.va % PAGE_SIZE == 0 &&
      (lo < hi && Touches(it, lo * PAGE_SIZE, hi * PAGE_SIZE - 1) <==> lo * PAGE_SIZE <= it.va < hi * PAGE_SIZE)
  {
    hide AddressSpaces.KeyOf;
    if ItemAt(s, a, it.va) == Some(it) { PageTouches(it.va / PAGE_SIZE, lo, hi, it); }
  }

  lemma PageTouches(q: nat, lo: nat, hi: nat, it: Item)
    requires it.va == q * PAGE_SIZE && it.level == 0
    ensures it.va % PAGE_SIZE == 0
    ensures lo < hi && Touches(it, lo * PAGE_SIZE, hi * PAGE_SIZE - 1) <==> lo * PAGE_SIZE <= it.va < hi * PAGE_SIZE
  {
  }
}
