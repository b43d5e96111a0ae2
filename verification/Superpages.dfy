/** Mapping a range of addresses to a fixed physical range, with 2 MiB leaves where they fit. */
module Superpages {
  import opened Options
  import opened VirtualMemory
  import opened PageTree

  /** `VirtAddr::MAX`. */
  const MAX_VA: nat := 0x40_0000_0000

  datatype Phys = Phys(pa: nat, flags: set<Flag>)

  datatype MapResult = Mapped | TooLarge | Occupied

  // ----- alignment -----

  predicate Aligned(va: nat, level: nat) {
    if level == 0 then va % 0x1000 == 0 else if level == 1 then va % 0x20_0000 == 0 else va % 0x4000_0000 == 0
  }

  lemma Step0(a: nat, b: nat)
    requires a % 0x1000 == 0 && b % 0x1000 == 0
    ensures (a < b ==> a + 0x1000 <= b) && (a + 0x1000) % 0x1000 == 0
  {
    var q, r := a / 0x1000, b / 0x1000;
    assert a == 0x1000 * q && b == 0x1000 * r && a + 0x1000 == 0x1000 * (q + 1);
  }

  lemma Step1(a: nat, b: nat)
    requires a % 0x20_0000 == 0 && b % 0x20_0000 == 0
    ensures (a < b ==> a + 0x20_0000 <= b) && (a + 0x20_0000) % 0x20_0000 == 0
  {
    var q, r := a / 0x20_0000, b / 0x20_0000;
    assert a == 0x20_0000 * q && b == 0x20_0000 * r && a + 0x20_0000 == 0x20_0000 * (q + 1);
  }

  lemma Step2(a: nat, b: nat)
    requires a % 0x4000_0000 == 0 && b % 0x4000_0000 == 0
    ensures (a < b ==> a + 0x4000_0000 <= b) && (a + 0x4000_0000) % 0x4000_0000 == 0
  {
    var q, r := a / 0x4000_0000, b / 0x4000_0000;
    assert a == 0x4000_0000 * q && b == 0x4000_0000 * r && a + 0x4000_0000 == 0x4000_0000 * (q + 1);
  }

  lemma AlignedStep(a: nat, b: nat, level: nat)
    requires Aligned(a, level) && Aligned(b, level)
    ensures a < b ==> a + Span(level) <= b
    ensures Aligned(a + Span(level), level)
  {
    if level == 0 { Step0(a, b); } else if level == 1 { Step1(a, b); } else { Step2(a, b); }
  }

  /** Slots of a table are aligned at every level up to its own. */
  lemma SlotAligned(base: nat, level: nat, i: nat, target: nat)
    requires TableBase(base, level) && target <= level
    ensures Aligned(Slot(base, level, i), target)
  {
    var q := if level == 0 then base / 0x20_0000 else if level == 1 then base / 0x4000_0000 else base / TOP;
    var k := 512 * q + i;
    var n := if level == 0 then k else if level == 1 then 512 * k else 0x4_0000 * k;
    Multiple0(n);
    if level == 1 { Multiple1(k); }
    if level == 2 { Multiple1(512 * k); Multiple2(k); }
  }

  lemma Multiple0(k: nat)
    ensures (0x1000 * k) % 0x1000 == 0
  {
  }

  lemma Multiple1(k: nat)
    ensures (0x20_0000 * k) % 0x20_0000 == 0
  {
  }

  lemma Multiple2(k: nat)
    ensures (0x4000_0000 * k) % 0x4000_0000 == 0
  {
  }

  /** An aligned block stays inside the entry that holds its first address, and is it at its own level. */
  lemma BlockInside(base: nat, level: nat, target: nat, va: nat)
    requires TableBase(base, level) && target <= level && base <= va < TableEnd(base, level) && Aligned(va, target)
    ensures var i := Idx(va, level);
      && i < 512 && Slot(base, level, i) <= va && va + Span(target) <= Slot(base, level, i + 1)
      && (level == target ==> Slot(base, level, i) == va)
  {
    hide Slot, Idx, TableBase, Aligned;
    IdxFinds(base, level, va);
    var i := Idx(va, level);
    SlotFacts(base, level, i);
    SlotAligned(base, level, i, target);
    SlotAligned(base, level, i + 1, target);
    AlignedStep(va, Slot(base, level, i + 1), target);
  }

  // ----- one leaf -----

  function EmptyTable(): seq<Entry> {
    seq(512, _ => Invalid)
  }

  lemma EmptyWf(level: nat)
    requires level <= 2
    ensures Wf(EmptyTable(), level)
  {
  }

  /** Nothing stands in the way of a new leaf of level `target` for `va`. */
  predicate Vacant(t: seq<Entry>, level: nat, base: nat, target: nat, va: nat)
    requires Wf(t, level) && TableBase(base, level) && base <= va < TableEnd(base, level) && target <= level
    decreases level
  {
    IdxFinds(base, level, va);
    var i := Idx(va, level);
    SlotFacts(base, level, i);
    match t[i]
    case Invalid => true
    case Leaf(_, _) => false
    case Table(sub) => level > target && Vacant(sub, level - 1, Slot(base, level, i), target, va)
  }

  /** The slot of level `target` for `va` holds a table. */
  ghost predicate TableAt(t: seq<Entry>, level: nat, base: nat, target: nat, va: nat)
    requires Wf(t, level) && TableBase(base, level) && base <= va < TableEnd(base, level) && target <= level
    decreases level
  {
    IdxFinds(base, level, va);
    var i := Idx(va, level);
    SlotFacts(base, level, i);
    t[i].Table? && (level == target || TableAt(t[i].entries, level - 1, Slot(base, level, i), target, va))
  }

  /** `find_or_create_leaf` followed by the store of the leaf. */
  function Put(t: seq<Entry>, level: nat, base: nat, target: nat, va: nat, leaf: Entry): (r: seq<Entry>)
    requires Wf(t, level) && TableBase(base, level) && base <= va < TableEnd(base, level) && target <= level
    requires leaf.Leaf?
    ensures Wf(r, level)
    decreases level
  {
    IdxFinds(base, level, va);
    var i := Idx(va, level);
    SlotFacts(base, level, i);
    if level == target then t[i := leaf]
    else
      EmptyWf(level - 1);
      var sub := if t[i].Table? then t[i].entries else EmptyTable();
      t[i := Table(Put(sub, level - 1, Slot(base, level, i), target, va, leaf))]
  }

  lemma FindEmpty(level: nat, base: nat, x: nat)
    requires TableBase(base, level) && base <= x < TableEnd(base, level)
    ensures Wf(EmptyTable(), level) && Find(EmptyTable(), level, base, x) == None
  {
    IdxFinds(base, level, x);
  }

  lemma VacantEmpty(level: nat, base: nat, target: nat, va: nat)
    requires TableBase(base, level) && base <= va < TableEnd(base, level) && target <= level
    ensures Wf(EmptyTable(), level) && Vacant(EmptyTable(), level, base, target, va)
  {
    IdxFinds(base, level, va);
  }

  /** The new leaf translates its block; every other address is translated as before. */
  lemma {:induction false} PutTranslates(t: seq<Entry>, level: nat, base: nat, target: nat, va: nat, leaf: Entry,
                                         x: nat)
    requires Wf(t, level) && TableBase(base, level) && base <= va < TableEnd(base, level) && target <= level
    requires leaf.Leaf?
    requires Aligned(va, target) && Vacant(t, level, base, target, va) && base <= x < TableEnd(base, level)
    ensures Find(Put(t, level, base, target, va, leaf), level, base, x) ==
            if va <= x < va + Span(target) then Some(Item(target, va, leaf.pa, leaf.flags)) else Find(t, level, base, x)
    decreases level
  {
    hide Slot, Idx, TableBase, Aligned, Wf;
    BlockInside(base, level, target, va);
    IdxFinds(base, level, x);
    var i, j := Idx(va, level), Idx(x, level);
    SlotFacts(base, level, i);
    if va <= x < va + Span(target) { IdxUnique(base, level, x, i); }
    assert i == j <==> Slot(base, level, i) <= x < Slot(base, level, i + 1) by {
      if Slot(base, level, i) <= x < Slot(base, level, i + 1) { IdxUnique(base, level, x, i); }
    }
    if level > target { PutBelow(t, level, base, target, va, leaf, x); } else { PutHere(t, level, base, va, leaf, x); }
  }

  lemma PutHere(t: seq<Entry>, level: nat, base: nat, va: nat, leaf: Entry, x: nat)
    requires Wf(t, level) && TableBase(base, level) && base <= va < TableEnd(base, level) && leaf.Leaf?
    requires base <= x < TableEnd(base, level) && Slot(base, level, Idx(va, level)) == va
    ensures Find(Put(t, level, base, level, va, leaf), level, base, x) ==
            if Idx(x, level) == Idx(va, level) then Some(Item(level, va, leaf.pa, leaf.flags))
            else Find(t, level, base, x)
  {
    hide Slot, Idx, TableBase;
    IdxFinds(base, level, x);
    IdxFinds(base, level, va);
  }

  lemma {:induction false} PutBelow(t: seq<Entry>, level: nat, base: nat, target: nat, va: nat, leaf: Entry, x: nat)
    requires Wf(t, level) && TableBase(base, level) && base <= va < TableEnd(base, level) && target < level
    requires leaf.Leaf?
    requires Aligned(va, target) && Vacant(t, level, base, target, va) && base <= x < TableEnd(base, level)
    ensures Find(Put(t, level, base, target, va, leaf), level, base, x) ==
            if Idx(x, level) != Idx(va, level) then Find(t, level, base, x)
            else if va <= x < va + Span(target) then Some(Item(target, va, leaf.pa, leaf.flags))
            else Find(t, level, base, x)
    decreases level, 0
  {
    hide Slot, Idx, TableBase, Aligned, Span;
    IdxFinds(base, level, x);
    IdxFinds(base, level, va);
    var i := Idx(va, level);
    SlotFacts(base, level, i);
    EmptyWf(level - 1);
    var sub := if t[i].Table? then t[i].entries else EmptyTable();
    if Idx(x, level) == i {
      VacantEmpty(level - 1, Slot(base, level, i), target, va);
      assert Vacant(sub, level - 1, Slot(base, level, i), target, va);
      PutTranslates(sub, level - 1, Slot(base, level, i), target, va, leaf, x);
      FindEmpty(level - 1, Slot(base, level, i), x);
    }
  }

  /** Installing a leaf does not change whether a disjoint block is vacant. */
  lemma {:induction false} PutVacant(t: seq<Entry>, level: nat, base: nat, target: nat, va: nat, leaf: Entry,
                                     target': nat, va': nat)
    requires Wf(t, level) && TableBase(base, level) && base <= va < TableEnd(base, level) && target <= level
    requires leaf.Leaf?
    requires base <= va' < TableEnd(base, level) && target' <= level && Aligned(va, target) && Aligned(va', target')
    requires va + Span(target) <= va' || va' + Span(target') <= va
    requires Vacant(t, level, base, target, va)
    ensures Vacant(Put(t, level, base, target, va, leaf), level, base, target', va') <==>
      Vacant(t, level, base, target', va')
    decreases level
  {
    hide Slot, Idx, TableBase, Aligned;
    BlockInside(base, level, target, va);
    BlockInside(base, level, target', va');
    var i, j := Idx(va, level), Idx(va', level);
    SlotFacts(base, level, i);
    if i == j {
      var sub := if t[i].Table? then t[i].entries else EmptyTable();
      EmptyWf(level - 1);
      VacantEmpty(level - 1, Slot(base, level, i), target, va);
      VacantEmpty(level - 1, Slot(base, level, i), target', va');
      PutVacant(sub, level - 1, Slot(base, level, i), target, va, leaf, target', va');
    }
  }

  ghost predicate Unmapped(t: seq<Entry>, level: nat, base: nat, from: nat, to: nat)
    requires Wf(t, level) && TableBase(base, level) && base <= from && to <= TableEnd(base, level)
  {
    forall x: nat {:trigger Find(t, level, base, x)} :: from <= x < to ==> Find(t, level, base, x) == None
  }

  /** A block can take a leaf exactly when no address of it is mapped and its slot holds no table: a table
      left behind empty by earlier unmapping is in the way although nothing is mapped. */
  lemma {:induction false} VacantIff(t: seq<Entry>, level: nat, base: nat, target: nat, va: nat)
    requires Wf(t, level) && TableBase(base, level) && base <= va < TableEnd(base, level) && target <= level
    requires Aligned(va, target)
    ensures base <= va && va + Span(target) <= TableEnd(base, level)
    ensures Vacant(t, level, base, target, va) <==>
      Unmapped(t, level, base, va, va + Span(target)) && !TableAt(t, level, base, target, va)
    decreases level
  {
    hide Slot, Idx, TableBase, Aligned;
    BlockInside(base, level, target, va);
    var i := Idx(va, level);
    SlotFacts(base, level, i);
    SpanPositive(target);
    if t[i].Table? {
      FindBelow(t, level, base, i);
      if level > target { VacantIff(t[i].entries, level - 1, Slot(base, level, i), target, va); }
    } else {
      forall x: nat {:trigger Find(t, level, base, x)} | va <= x < va + Span(target)
        ensures base <= x < TableEnd(base, level) && (Find(t, level, base, x).None? <==> t[i].Invalid?)
      {
        IdxUnique(base, level, x, i);
      }
      assert Find(t, level, base, va).None? <==> t[i].Invalid?;
    }
  }

  // ----- meaning of a whole table -----

  /** Where an address goes, and with which rights. */
  ghost function Translate(root: seq<Entry>, x: nat): Option<Phys>
    requires Wf(root, 2) && x < TOP
  {
    RootTable();
    match Find(root, 2, 0, x)
    case None => None
    case Some(it) => if it.va <= x then Some(Phys(it.pa + (x - it.va), it.flags)) else None
  }

  /** `after` sends `va + k` to `pa + k` for `k < size`, and every other address where `before` does. */
  ghost predicate Extends(before: seq<Entry>, after: seq<Entry>, va: nat, pa: nat, size: nat, flags: set<Flag>)
    requires Wf(before, 2) && Wf(after, 2)
  {
    forall x: nat {:trigger Translate(after, x)} :: x < TOP ==>
      Translate(after, x) == if va <= x < va + size then Some(Phys(pa + (x - va), flags)) else Translate(before, x)
  }

  lemma ExtendsJoined(a: seq<Entry>, b: seq<Entry>, c: seq<Entry>, va: nat, pa: nat, size: nat, size': nat,
                      flags: set<Flag>)
    requires Wf(a, 2) && Wf(b, 2) && Wf(c, 2)
    requires Extends(a, b, va, pa, size, flags) && Extends(b, c, va + size, pa + size, size', flags)
    ensures Extends(a, c, va, pa, size + size', flags)
  {
    hide Translate, Wf;
  }

  predicate CanTake(root: seq<Entry>, level: nat, va: nat)
    requires Wf(root, 2) && level <= 2
  {
    RootTable();
    va < TOP && Vacant(root, 2, 0, level, va)
  }

  /** Vacancy is unchanged outside `from..to`. */
  ghost predicate SameOutside(before: seq<Entry>, after: seq<Entry>, from: nat, to: nat)
    requires Wf(before, 2) && Wf(after, 2)
  {
    forall level: nat, y: nat {:trigger CanTake(after, level, y)} ::
      level <= 2 && Aligned(y, level) && (y + Span(level) <= from || to <= y) ==>
        CanTake(after, level, y) == CanTake(before, level, y)
  }

  /** Every block of `from..to` can take a leaf of the level. */
  ghost predicate Free(root: seq<Entry>, level: nat, from: nat, to: nat)
    requires Wf(root, 2) && level <= 2
  {
    forall y: nat {:trigger CanTake(root, level, y)} :: from <= y < to && Aligned(y, level) ==> CanTake(root, level, y)
  }

  /** One leaf, as seen from the whole table. */
  lemma PutMaps(root: seq<Entry>, level: nat, va: nat, pa: nat, flags: set<Flag>)
    requires Wf(root, 2) && level <= 2 && Aligned(va, level) && CanTake(root, level, va)
    ensures TableBase(0, 2) && va < TableEnd(0, 2)
    ensures Extends(root, Put(root, 2, 0, level, va, Leaf(pa, flags)), va, pa, Span(level), flags)
    ensures SameOutside(root, Put(root, 2, 0, level, va, Leaf(pa, flags)), va, va + Span(level))
  {
    hide Slot, Put, Vacant, Find, Aligned, Span, Wf;
    RootTable();
    var leaf := Leaf(pa, flags);
    var after := Put(root, 2, 0, level, va, leaf);
    forall x: nat {:trigger Translate(after, x)} | x < TOP
      ensures Translate(after, x) ==
        if va <= x < va + Span(level) then Some(Phys(pa + (x - va), flags)) else Translate(root, x)
    {
      PutTranslates(root, 2, 0, level, va, leaf, x);
    }
    forall level': nat, y: nat {:trigger CanTake(after, level', y)} | level' <= 2 && Aligned(y, level') &&
    (y + Span(level') <= va || va + Span(level) <= y)
      ensures CanTake(after, level', y) == CanTake(root, level', y)
    {
      if y < TOP { PutVacant(root, 2, 0, level, va, leaf, level', y); }
    }
  }

  /** A table on the way down and the entry that was followed. */
  datatype Crumb = Crumb(t: seq<Entry>, i: nat)

  /** The tree with `sub` put back at the end of the path. */
  ghost function Zip(path: seq<Crumb>, sub: seq<Entry>): seq<Entry>
    decreases |path|
  {
    if path == [] then sub
    else
      var c := path[|path| - 1];
      Zip(path[..|path| - 1], if c.i < |c.t| then c.t[c.i := Table(sub)] else c.t)
  }

  lemma ZipStep(path: seq<Crumb>, t: seq<Entry>, i: nat, sub: seq<Entry>)
    requires i < |t|
    ensures Zip(path + [Crumb(t, i)], sub) == Zip(path, t[i := Table(sub)])
  {
    assert (path + [Crumb(t, i)])[..|path|] == path;
  }

  class PageTable {
    var root: seq<Entry>

    ghost predicate Valid()
      reads this
    {
      Wf(root, 2)
    }

    constructor ()
      ensures Valid() && forall x: nat :: x < TOP ==> Translate(root, x) == None
    {
      root := EmptyTable();
      new;
      EmptyWf(2);
      RootTable();
      forall x: nat | x < TOP ensures Translate(root, x) == None { FindEmpty(2, 0, x); }
    }

    /** `map_page` for a fixed address: the walk of `find_or_create_leaf` with a new table wherever one is missing,
        then the store of the leaf. A leaf on the way or a slot in use fails an assertion. */
    method MapPage(level: nat, va: nat, pa: nat, perm: set<Flag>) returns (r: MapResult)
      requires Valid() && level <= 2 && va < TOP && Aligned(va, level) && perm * {R, W, X} != {}
      modifies this
      ensures Valid() && r != TooLarge && (r.Mapped? <==> CanTake(old(root), level, va))
      ensures r.Occupied? ==> root == old(root)
      ensures r.Mapped? ==> Extends(old(root), root, va, pa, Span(level), perm + {V})
      ensures r.Mapped? ==> SameOutside(old(root), root, va, va + Span(level))
    {
      hide Aligned, Translate, Slot, Idx, TableBase;
      RootTable();
      var leaf := Leaf(pa, perm + {V});
      var t, l: nat, base: nat, path := root, 2, 0, [];
      while l > level
        invariant level <= l <= 2 && root == old(root) && Wf(t, l) && TableBase(base, l)
        invariant base <= va < TableEnd(base, l)
        invariant Vacant(t, l, base, level, va) <==> Vacant(root, 2, 0, level, va)
        invariant Zip(path, Put(t, l, base, level, va, leaf)) == Put(root, 2, 0, level, va, leaf)
        decreases l
      {
        IdxFinds(base, l, va);
        var i := Idx(va, l);
        SlotFacts(base, l, i);
        if t[i].Leaf? { return Occupied; }
        EmptyWf(l - 1);
        VacantEmpty(l - 1, Slot(base, l, i), level, va);
        var sub := if t[i].Table? then t[i].entries else EmptyTable();
        ZipStep(path, t, i, Put(sub, l - 1, Slot(base, l, i), level, va, leaf));
        path := path + [Crumb(t, i)];
        t, l, base := sub, l - 1, Slot(base, l, i);
      }
      IdxFinds(base, l, va);
      var i := Idx(va, l);
      if !t[i].Invalid? { return Occupied; }
      PutMaps(root, level, va, pa, perm + {V});
      t := t[i := leaf];
      while path != []
        invariant Zip(path, t) == Put(root, 2, 0, level, va, leaf) && root == old(root)
        decreases |path|
      {
        var c := path[|path| - 1];
        t, path := if c.i < |c.t| then c.t[c.i := Table(t)] else c.t, path[..|path| - 1];
      }
      root := t;
      r := Mapped;
    }

    /** `map_addrs_level`. */
    method MapAddrsLevel(level: nat, start: nat, target: nat, size: nat, perm: set<Flag>)
      returns (r: MapResult, va: nat, pa: nat)
      requires Valid() && level <= 2 && start <= MAX_VA && Aligned(start, level) && Aligned(start + size, level)
      requires perm * {R, W, X} != {}
      modifies this
      ensures Valid()
      ensures r.TooLarge? <==> start + size > MAX_VA
      ensures r.TooLarge? ==> root == old(root)
      ensures r.Mapped? <==> start + size <= MAX_VA && Free(old(root), level, start, start + size)
      ensures r.Mapped? ==> va == start + size && pa == target + size
      ensures r.Mapped? ==>
        Extends(old(root), root, start, target, size, perm + {V}) && SameOutside(old(root), root, start, start + size)
    {
      hide Aligned, CanTake, Translate, Wf;
      va, pa := start, target;
      var end := start + size;
      if end > MAX_VA { return TooLarge, va, pa; }
      while va < end
        invariant Valid() && start <= va <= end && pa == target + (va - start) && Aligned(va, level)
        invariant Free(old(root), level, start, va)
        invariant Extends(old(root), root, start, target, va - start, perm + {V})
        invariant SameOutside(old(root), root, start, va)
        decreases end - va
      {
        ghost var before := root;
        var one := MapPage(level, va, pa, perm);
        AlignedStep(va, end, level);
        assert CanTake(before, level, va) == CanTake(old(root), level, va);
        if one.Occupied? { return Occupied, va, pa; }
        ExtendsJoined(old(root), before, root, start, target, va - start, Span(level), perm + {V});
        FreeGrows(old(root), level, start, va);
        SpanPositive(level);
        va, pa := va + Span(level), pa + Span(level);
      }
      r := Mapped;
    }

    /** `map_addrs` for a fixed address. */
    method MapAddrs(start: nat, target: nat, size: nat, perm: set<Flag>) returns (r: MapResult)
      requires Valid() && start <= MAX_VA && start % 0x1000 == 0 && target % 0x1000 == 0 && size % 0x1000 == 0
      requires perm * {R, W, X} != {}
      modifies this
      ensures Valid()
      ensures r.TooLarge? <==> start + size > MAX_VA
      ensures r.TooLarge? ==> root == old(root)
      ensures r.Mapped? <==> start + size <= MAX_VA && Fits(old(root), start, target, size)
      ensures r.Mapped? ==> Extends(old(root), root, start, target, size, perm + {V})
    {
      hide Aligned, CanTake, Translate, Wf;
      PlanFacts(start, target, size);
      var end := start + size;
      var va, pa := start, target;
      if start % 0x20_0000 != target % 0x20_0000 {
        r, va, pa := MapAddrsLevel(0, va, pa, size, perm);
        return;
      }
      if end > MAX_VA { return TooLarge; }
      var from, to := (start + 0x1F_FFFF) / 0x20_0000 * 0x20_0000, end / 0x20_0000 * 0x20_0000;
      if from >= to {
        r, va, pa := MapAddrsLevel(0, va, pa, size, perm);
        return;
      }
      if va < from {
        r, va, pa := MapAddrsLevel(0, va, pa, from - va, perm);
        if !r.Mapped? { return; }
      }
      ghost var head := root;
      FreeOutside(old(root), head, start, from, 1, from, to);
      FreeOutside(old(root), head, start, from, 0, to, end);
      r, va, pa := MapAddrsLevel(1, va, pa, to - va, perm);
      if !r.Mapped? { return; }
      ghost var middle := root;
      FreeOutside(head, middle, from, to, 0, to, end);
      ExtendsJoined(old(root), head, middle, start, target, from - start, to - from, perm + {V});
      if va < end {
        r, va, pa := MapAddrsLevel(0, va, pa, end - va, perm);
        if !r.Mapped? { return; }
        ExtendsJoined(old(root), middle, root, start, target, to - start, end - to, perm + {V});
      }
      r := Mapped;
    }
  }

  /** The part of `va..va + size` that gets 2 MiB leaves; empty when none fits. */
  function Middle(va: nat, pa: nat, size: nat): (nat, nat) {
    var from, to := (va + 0x1F_FFFF) / 0x20_0000 * 0x20_0000, (va + size) / 0x20_0000 * 0x20_0000;
    if va % 0x20_0000 == pa % 0x20_0000 && from < to then (from, to) else (va, va)
  }

  lemma SpanPositive(level: nat)
    ensures Span(level) > 0
  {
  }

  lemma FreeGrows(root: seq<Entry>, level: nat, start: nat, va: nat)
    requires Wf(root, 2) && level <= 2 && Aligned(va, level) && Free(root, level, start, va) && CanTake(root, level, va)
    ensures Free(root, level, start, va + Span(level))
  {
    hide Aligned, CanTake, Wf;
    forall y: nat {:trigger CanTake(root, level, y)} | va <= y < va + Span(level) && Aligned(y, level)
      ensures y == va
    {
      AlignedStep(va, y, level);
    }
  }

  /** Each part of the range can take leaves of the size chosen for it. */
  ghost predicate Fits(root: seq<Entry>, va: nat, pa: nat, size: nat)
    requires Wf(root, 2)
  {
    var m := Middle(va, pa, size);
    Free(root, 0, va, m.0) && Free(root, 1, m.0, m.1) && Free(root, 0, m.1, va + size)
  }

  lemma PlanFacts(va: nat, pa: nat, size: nat)
    requires va % 0x1000 == 0 && pa % 0x1000 == 0 && size % 0x1000 == 0
    ensures Aligned(va, 0) && Aligned(va + size, 0)
    ensures var m := Middle(va, pa, size);
      && va <= m.0 <= m.1 <= va + size && Aligned(m.0, 0) && Aligned(m.1, 0)
      && (m.0 < m.1 ==> Aligned(m.0, 1) && Aligned(m.1, 1))
  {
    RoundFacts((va + 0x1F_FFFF) / 0x20_0000);
    RoundFacts((va + size) / 0x20_0000);
    assert va <= (va + 0x1F_FFFF) / 0x20_0000 * 0x20_0000;
  }

  lemma RoundFacts(q: nat)
    ensures Aligned(q * 0x20_0000, 0) && Aligned(q * 0x20_0000, 1)
  {
    Multiple0(512 * q);
    Multiple1(q);
  }

  lemma FreeOutside(before: seq<Entry>, after: seq<Entry>, from: nat, to: nat, level: nat, a: nat, b: nat)
    requires Wf(before, 2) && Wf(after, 2) && level <= 2 && SameOutside(before, after, from, to) && to <= a
    ensures Free(before, level, a, b) <==> Free(after, level, a, b)
  {
    hide Aligned, CanTake, Wf;
    assert Free(before, level, a, b) ==> Free(after, level, a, b);
    forall y: nat {:trigger CanTake(before, level, y)} | a <= y < b && Aligned(y, level)
      ensures CanTake(after, level, y) == CanTake(before, level, y)
    {
    }
  }

  // ----- when the mapping succeeds, and what it is equal to -----

  ghost predicate NoTables(root: seq<Entry>, level: nat, from: nat, to: nat)
    requires Wf(root, 2) && level <= 2 && to <= TOP
  {
    RootTable();
    forall y: nat {:trigger TableAt(root, 2, 0, level, y)} :: from <= y < to && Aligned(y, level) ==>
      !TableAt(root, 2, 0, level, y)
  }

  function RoundDown(x: nat, level: nat): nat {
    x - (if level == 0 then x % 0x1000 else if level == 1 then x % 0x20_0000 else x % 0x4000_0000)
  }

  lemma RoundDownFacts(x: nat, level: nat)
    ensures Aligned(RoundDown(x, level), level) && RoundDown(x, level) <= x < RoundDown(x, level) + Span(level)
  {
    RoundDown0(x);
    RoundDown1(x);
    RoundDown2(x);
  }

  lemma RoundDown0(x: nat)
    ensures (x - x % 0x1000) % 0x1000 == 0
  {
  }

  lemma RoundDown1(x: nat)
    ensures (x - x % 0x20_0000) % 0x20_0000 == 0
  {
  }

  lemma RoundDown2(x: nat)
    ensures (x - x % 0x4000_0000) % 0x4000_0000 == 0
  {
  }

  /** A range can take leaves of one level exactly when it is unmapped and none of its slots holds a table. */
  lemma FreeIff(root: seq<Entry>, level: nat, from: nat, to: nat)
    requires Wf(root, 2) && level <= 2 && from <= to <= TOP && Aligned(from, level) && Aligned(to, level)
    ensures TableBase(0, 2) && TableEnd(0, 2) == TOP
    ensures Free(root, level, from, to) <==> Unmapped(root, 2, 0, from, to) && NoTables(root, level, from, to)
  {
    hide Aligned, Vacant, TableAt, Find, Wf, RoundDown, Slot;
    RootTable();
    forall y: nat {:trigger CanTake(root, level, y)} | from <= y < to && Aligned(y, level)
      ensures y + Span(level) <= to
      ensures CanTake(root, level, y) <==> Unmapped(root, 2, 0, y, y + Span(level)) && !TableAt(root, 2, 0, level, y)
    {
      AlignedStep(y, to, level);
      VacantIff(root, 2, 0, level, y);
    }
    if Free(root, level, from, to) {
      forall x: nat {:trigger Find(root, 2, 0, x)} | from <= x < to ensures Find(root, 2, 0, x) == None {
        RoundDownFacts(x, level);
        var y := RoundDown(x, level);
        if y < from { AlignedStep(y, from, level); }
        assert CanTake(root, level, y);
      }
      forall y: nat {:trigger TableAt(root, 2, 0, level, y)} | from <= y < to && Aligned(y, level)
        ensures !TableAt(root, 2, 0, level, y)
      {
        assert CanTake(root, level, y);
      }
    }
  }

  /** No table hangs below the last level. */
  lemma NoTablesAtBottom(root: seq<Entry>, from: nat, to: nat)
    requires Wf(root, 2) && to <= TOP
    ensures NoTables(root, 0, from, to)
  {
    RootTable();
    forall y: nat {:trigger TableAt(root, 2, 0, 0, y)} | from <= y < to
      ensures !TableAt(root, 2, 0, 0, y)
    {
      BottomHasNoTable(root, 2, 0, y);
    }
  }

  lemma {:induction false} BottomHasNoTable(t: seq<Entry>, level: nat, base: nat, va: nat)
    requires Wf(t, level) && TableBase(base, level) && base <= va < TableEnd(base, level)
    ensures !TableAt(t, level, base, 0, va)
    decreases level
  {
    hide Idx, Slot;
    IdxFinds(base, level, va);
    var i := Idx(va, level);
    SlotFacts(base, level, i);
    if level > 0 && t[i].Table? { BottomHasNoTable(t[i].entries, level - 1, Slot(base, level, i), va); }
  }

  /** `map_addrs` meets no slot in use exactly when the whole range is unmapped and no 2 MiB slot it uses
      still holds a table. */
  lemma FitsIff(root: seq<Entry>, va: nat, pa: nat, size: nat)
    requires Wf(root, 2) && va % 0x1000 == 0 && pa % 0x1000 == 0 && size % 0x1000 == 0 && va + size <= MAX_VA
    ensures TableBase(0, 2) && TableEnd(0, 2) == TOP && Middle(va, pa, size).1 <= TOP
    ensures Fits(root, va, pa, size) <==>
      Unmapped(root, 2, 0, va, va + size) && NoTables(root, 1, Middle(va, pa, size).0, Middle(va, pa, size).1)
  {
    hide Aligned, Free, NoTables, Find, Wf, Middle;
    PlanFacts(va, pa, size);
    var m := Middle(va, pa, size);
    FreeIff(root, 0, va, m.0);
    FreeIff(root, 0, m.1, va + size);
    NoTablesAtBottom(root, va, m.0);
    NoTablesAtBottom(root, m.1, va + size);
    if m.0 < m.1 { FreeIff(root, 1, m.0, m.1); } else { EmptyRange(root, m.0); }
  }

  lemma EmptyRange(root: seq<Entry>, a: nat)
    requires Wf(root, 2) && a <= TOP
    ensures Free(root, 1, a, a) && NoTables(root, 1, a, a)
  {
  }

  /** Mapping the 4 KiB pages of a range one by one. */
  ghost function MapEach(root: seq<Entry>, va: nat, pa: nat, n: nat, flags: set<Flag>): (r: seq<Entry>)
    requires Wf(root, 2) && va + n * 0x1000 <= TOP
    ensures Wf(r, 2)
    decreases n
  {
    if n == 0 then root
    else
      RootTable();
      MapEach(Put(root, 2, 0, 0, va, Leaf(pa, flags)), va + 0x1000, pa + 0x1000, n - 1, flags)
  }

  lemma {:induction false} MapEachExtends(root: seq<Entry>, va: nat, pa: nat, n: nat, flags: set<Flag>)
    requires Wf(root, 2) && va + n * 0x1000 <= TOP && Aligned(va, 0) && Free(root, 0, va, va + n * 0x1000)
    ensures Extends(root, MapEach(root, va, pa, n, flags), va, pa, n * 0x1000, flags)
    decreases n
  {
    hide Aligned, CanTake, Translate, Wf, Put;
    if n > 0 {
      RootTable();
      assert CanTake(root, 0, va);
      PutMaps(root, 0, va, pa, flags);
      var one := Put(root, 2, 0, 0, va, Leaf(pa, flags));
      AlignedStep(va, va, 0);
      FreeOutside(root, one, va, va + 0x1000, 0, va + 0x1000, va + n * 0x1000);
      MapEachExtends(one, va + 0x1000, pa + 0x1000, n - 1, flags);
      ExtendsJoined(root, one, MapEach(root, va, pa, n, flags), va, pa, 0x1000, (n - 1) * 0x1000, flags);
    }
  }

  /** With 2 MiB leaves or without, every address is translated the same. */
  lemma SuperpagesAreInvisible(before: seq<Entry>, after: seq<Entry>, va: nat, pa: nat, n: nat, flags: set<Flag>,
                               x: nat)
    requires Wf(before, 2) && Wf(after, 2) && va % 0x1000 == 0 && pa % 0x1000 == 0 && va + n * 0x1000 <= MAX_VA
    requires x < TOP
    requires Fits(before, va, pa, n * 0x1000) && Extends(before, after, va, pa, n * 0x1000, flags)
    ensures Translate(after, x) == Translate(MapEach(before, va, pa, n, flags), x)
  {
    hide Aligned, Free, NoTables, Find, Wf, Translate, MapEach;
    Multiple0(n);
    PlanFacts(va, pa, n * 0x1000);
    FitsIff(before, va, pa, n * 0x1000);
    FreeIff(before, 0, va, va + n * 0x1000);
    NoTablesAtBottom(before, va, va + n * 0x1000);
    MapEachExtends(before, va, pa, n, flags);
  }

  /** A range nothing is mapped in that `map_addrs` still refuses: its slot holds an empty table. */
  lemma EmptyTableBlocksSuperpage()
    ensures exists root: seq<Entry> ::
      Wf(root, 2) && !Fits(root, 0, 0, 0x20_0000) && forall x: nat :: x < TOP ==> Translate(root, x) == None
  {
    var middle := EmptyTable()[0 := Table(EmptyTable())];
    var root := EmptyTable()[0 := Table(middle)];
    EmptyWf(0);
    assert Wf(middle, 1) && Wf(root, 2);
    RootTable();
    assert Idx(0, 2) == 0 && Idx(0, 1) == 0;
    assert !Vacant(middle, 1, 0, 1, 0);
    assert !CanTake(root, 1, 0);
    assert Middle(0, 0, 0x20_0000) == (0, 0x20_0000);
    forall x: nat | x < TOP ensures Translate(root, x) == None { BlankTranslates(root, middle, x); }
  }

  lemma BlankTranslates(root: seq<Entry>, middle: seq<Entry>, x: nat)
    requires middle == EmptyTable()[0 := Table(EmptyTable())] && root == EmptyTable()[0 := Table(middle)] && x < TOP
    ensures Wf(root, 2) && Translate(root, x) == None
  {
    hide Idx, Slot;
    EmptyWf(0);
    assert Wf(middle, 1);
    RootTable();
    IdxFinds(0, 2, x);
    SlotFacts(0, 2, Idx(x, 2));
    if Idx(x, 2) == 0 {
      IdxFinds(Slot(0, 2, 0), 1, x);
      SlotFacts(Slot(0, 2, 0), 1, Idx(x, 1));
      if Idx(x, 1) == 0 { FindEmpty(0, Slot(Slot(0, 2, 0), 1, 0), x); }
    }
  }
}
