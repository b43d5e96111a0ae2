/** The Sv39 page table as a tree: three levels of 512 entries, section 4.4 of the RISC-V Privileged
    Architecture, and the walk of its section 4.3.2. */
module PageTree {
  import opened Options
  import opened Common
  import opened VirtualMemory

  /** `Table` is a valid entry without R, W and X; `Leaf` one with any of them. */
  datatype Entry = Invalid | Leaf(pa: nat, flags: set<Flag>) | Table(entries: seq<Entry>)

  /** A leaf together with the level and the address it is found at. */
  datatype Item = Item(level: nat, va: nat, pa: nat, flags: set<Flag>)

  /** Addresses translated by three levels. */
  const TOP: nat := 0x80_0000_0000

  // ----- address arithmetic -----

  /** `level_page_size`: bytes covered by one entry. */
  function Span(level: nat): nat {
    if level == 0 then 0x1000 else if level == 1 then 0x20_0000 else 0x4000_0000
  }

  /** `VirtAddr::level_idx`. */
  function Idx(va: nat, level: nat): nat {
    (if level == 0 then va / 0x1000 else if level == 1 then va / 0x20_0000 else va / 0x4000_0000) % 512
  }

  /** `VirtAddr::with_level_idx` on an address whose index at `level` is 0. */
  function Slot(base: nat, level: nat, i: nat): nat {
    base + (if level == 0 then i * 0x1000 else if level == 1 then i * 0x20_0000 else i * 0x4000_0000)
  }

  /** First address of a table at `level`. */
  predicate TableBase(base: nat, level: nat) {
    level <= 2 &&
    (if level == 0 then base % 0x20_0000 == 0 else if level == 1 then base % 0x4000_0000 == 0 else base % TOP == 0)
  }

  function TableEnd(base: nat, level: nat): nat {
    Slot(base, level, 512)
  }

  lemma Idx0(base: nat, x: nat)
    requires base % 0x20_0000 == 0 && base <= x < base + 0x20_0000
    ensures x / 0x1000 % 512 == (x - base) / 0x1000
  {
    var q := base / 0x20_0000;
    assert x / 0x1000 == 512 * q + (x - base) / 0x1000;
  }

  lemma Idx1(base: nat, x: nat)
    requires base % 0x4000_0000 == 0 && base <= x < base + 0x4000_0000
    ensures x / 0x20_0000 % 512 == (x - base) / 0x20_0000
  {
    var q := base / 0x4000_0000;
    assert x / 0x20_0000 == 512 * q + (x - base) / 0x20_0000;
  }

  lemma Idx2(base: nat, x: nat)
    requires base % TOP == 0 && base <= x < base + TOP
    ensures x / 0x4000_0000 % 512 == (x - base) / 0x4000_0000
  {
    var q := base / TOP;
    assert x / 0x4000_0000 == 512 * q + (x - base) / 0x4000_0000;
  }

  /** The index of an address inside a table is that of the entry covering it. */
  lemma IdxFinds(base: nat, level: nat, x: nat)
    requires TableBase(base, level) && base <= x < TableEnd(base, level)
    ensures Idx(x, level) < 512 && Slot(base, level, Idx(x, level)) <= x < Slot(base, level, Idx(x, level) + 1)
  {
    if level == 0 { Idx0(base, x); } else if level == 1 { Idx1(base, x); } else { Idx2(base, x); }
  }

  lemma IdxUnique(base: nat, level: nat, x: nat, i: nat)
    requires TableBase(base, level) && i < 512 && Slot(base, level, i) <= x < Slot(base, level, i + 1)
    ensures Idx(x, level) == i && base <= x < TableEnd(base, level)
  {
    if level == 0 { Idx0(base, x); } else if level == 1 { Idx1(base, x); } else { Idx2(base, x); }
  }

  lemma SubBase1(base: nat, i: nat)
    requires base % 0x4000_0000 == 0
    ensures (base + i * 0x20_0000) % 0x20_0000 == 0
  {
    assert base + i * 0x20_0000 == 0x20_0000 * (512 * (base / 0x4000_0000) + i);
  }

  lemma SubBase2(base: nat, i: nat)
    requires base % TOP == 0
    ensures (base + i * 0x4000_0000) % 0x4000_0000 == 0
  {
    assert base + i * 0x4000_0000 == 0x4000_0000 * (512 * (base / TOP) + i);
  }

  lemma SlotFacts(base: nat, level: nat, i: nat)
    requires TableBase(base, level) && i < 512
    ensures base <= Slot(base, level, i)
    ensures Slot(base, level, i) + Span(level) == Slot(base, level, i + 1) <= TableEnd(base, level)
    ensures level > 0 ==>
      TableBase(Slot(base, level, i), level - 1) &&
      TableEnd(Slot(base, level, i), level - 1) == Slot(base, level, i + 1)
    ensures Idx(Slot(base, level, i), level) == i && Span(level) > 0
  {
    hide Idx;
    if level == 1 { SubBase1(base, i); } else if level == 2 { SubBase2(base, i); }
    IdxUnique(base, level, Slot(base, level, i), i);
  }

  // ----- the tree -----

  ghost predicate EntryWf(e: Entry, level: nat)
    decreases level, 1
  {
    e.Table? ==> level > 0 && Wf(e.entries, level - 1)
  }

  ghost predicate Wf(t: seq<Entry>, level: nat)
    decreases level, 2
  {
    level <= 2 && |t| == 512 && forall i {:trigger t[i]} :: 0 <= i < 512 ==> EntryWf(t[i], level)
  }

  /** The leaf that translates address `x`, if any: the walk of the specification. */
  ghost function Find(t: seq<Entry>, level: nat, base: nat, x: nat): Option<Item>
    requires Wf(t, level) && TableBase(base, level) && base <= x < TableEnd(base, level)
    decreases level
  {
    IdxFinds(base, level, x);
    var i := Idx(x, level);
    SlotFacts(base, level, i);
    match t[i]
    case Invalid => None
    case Leaf(pa, flags) => Some(Item(level, Slot(base, level, i), pa, flags))
    case Table(sub) => Find(sub, level - 1, Slot(base, level, i), x)
  }

  predicate Covers(it: Item, x: nat) {
    it.va <= x < it.va + Span(it.level)
  }

  /** The leaf found covers the address, lies in the table, and is found from each address it covers. */
  lemma {:induction false} FindCovers(t: seq<Entry>, level: nat, base: nat, x: nat)
    requires Wf(t, level) && TableBase(base, level) && base <= x < TableEnd(base, level)
    requires Find(t, level, base, x).Some?
    ensures var it := Find(t, level, base, x).value;
      && it.level <= level && Covers(it, x) && base <= it.va && it.va + Span(it.level) <= TableEnd(base, level)
      && forall y: nat {:trigger Find(t, level, base, y)} :: Covers(it, y) ==> Find(t, level, base, y) == Some(it)
    decreases level
  {
    IdxFinds(base, level, x);
    var i := Idx(x, level);
    SlotFacts(base, level, i);
    var it := Find(t, level, base, x).value;
    if t[i].Table? { FindCovers(t[i].entries, level - 1, Slot(base, level, i), x); }
    forall y: nat | Covers(it, y) ensures base <= y < TableEnd(base, level) && Find(t, level, base, y) == Some(it) {
      IdxUnique(base, level, y, i);
    }
  }

  /** Addresses of a sub-table are translated by it. */
  lemma FindBelow(t: seq<Entry>, level: nat, base: nat, i: nat)
    requires Wf(t, level) && TableBase(base, level) && i < 512 && t[i].Table?
    ensures var va, sub := Slot(base, level, i), t[i].entries;
      && level > 0 && Wf(sub, level - 1) && TableBase(va, level - 1) && va >= base
      && TableEnd(va, level - 1) == Slot(base, level, i + 1) <= TableEnd(base, level)
      && forall x: nat {:trigger Find(t, level, base, x)} {:trigger Find(sub, level - 1, va, x)} ::
           va <= x < TableEnd(va, level - 1) ==> Find(t, level, base, x) == Find(sub, level - 1, va, x)
  {
    hide Slot, Idx;
    SlotFacts(base, level, i);
    var va := Slot(base, level, i);
    forall x: nat {:trigger Find(t, level, base, x)} | va <= x < TableEnd(va, level - 1)
      ensures base <= x < TableEnd(base, level) && Find(t, level, base, x) == Find(t[i].entries, level - 1, va, x)
    {
      IdxUnique(base, level, x, i);
    }
  }

  /** `find_leaf_entry`: the loop over the levels. */
  method FindLeafEntry(root: seq<Entry>, va: nat) returns (r: Option<Item>)
    requires Wf(root, 2) && va < TOP
    ensures r == Find(root, 2, 0, va)
  {
    var t := root;
    var level: nat, base: nat := 2, 0;
    while true
      invariant Wf(t, level) && TableBase(base, level) && base <= va < TableEnd(base, level)
      invariant Find(t, level, base, va) == Find(root, 2, 0, va)
      decreases level
    {
      IdxFinds(base, level, va);
      var i := Idx(va, level);
      SlotFacts(base, level, i);
      match t[i]
      case Invalid => return None;
      case Leaf(pa, flags) => return Some(Item(level, Slot(base, level, i), pa, flags));
      case Table(sub) =>
        t, base, level := sub, Slot(base, level, i), level - 1;
    }
  }

  // ----- ranges -----

  /** Index of the first entry of a table that an address from `lo` on can touch. */
  function First(base: nat, level: nat, lo: nat): nat {
    Idx(if lo < base then base else lo, level)
  }

  function Last(base: nat, level: nat, hi: nat): nat {
    Idx(if hi < Slot(base, level, 511) then hi else Slot(base, level, 511), level)
  }

  /** The entries between the two indices are exactly those that meet `lo..=hi`. */
  lemma IndexRange(base: nat, level: nat, lo: nat, hi: nat, j: nat)
    requires TableBase(base, level) && base <= hi && lo < TableEnd(base, level) && lo <= hi && j < 512
    ensures First(base, level, lo) <= j <= Last(base, level, hi) <==>
      Slot(base, level, j) <= hi && lo < Slot(base, level, j + 1)
    ensures First(base, level, lo) <= Last(base, level, hi) < 512
  {
    var a := if lo < base then base else lo;
    var b := if hi < Slot(base, level, 511) then hi else Slot(base, level, 511);
    SlotFacts(base, level, 511);
    SlotFacts(base, level, j);
    IdxFinds(base, level, a);
    IdxFinds(base, level, b);
    SlotOrder(base, level, Idx(a, level), j);
    SlotOrder(base, level, j, Idx(b, level));
    SlotOrder(base, level, Idx(a, level), Idx(b, level));
  }

  lemma SlotOrder(base: nat, level: nat, i: nat, j: nat)
    ensures i <= j <==> Slot(base, level, i) <= Slot(base, level, j)
    ensures i < j <==> Slot(base, level, i + 1) <= Slot(base, level, j)
  {
  }

  predicate Touches(it: Item, lo: nat, hi: nat) {
    it.va <= hi && lo < it.va + Span(it.level)
  }

  /** The leaves below entries `i..n` of a table that meet `lo..=hi`, in walking order. */
  ghost function Visit(t: seq<Entry>, level: nat, base: nat, lo: nat, hi: nat, i: nat, n: nat): seq<Item>
    requires Wf(t, level) && TableBase(base, level) && i <= n <= 512
    decreases level, n - i, 0
  {
    if i == n then [] else VisitEntry(t[i], level, base, lo, hi, i) + Visit(t, level, base, lo, hi, i + 1, n)
  }

  ghost function VisitEntry(e: Entry, level: nat, base: nat, lo: nat, hi: nat, i: nat): seq<Item>
    requires EntryWf(e, level) && TableBase(base, level) && i < 512
    decreases level, 0, 1
  {
    SlotFacts(base, level, i);
    var va := Slot(base, level, i);
    match e
    case Invalid => []
    case Leaf(pa, flags) => [Item(level, va, pa, flags)]
    case Table(sub) =>
      var first, last := First(va, level - 1, lo), Last(va, level - 1, hi);
      if first <= last < 512 then Visit(sub, level - 1, va, lo, hi, first, last + 1) else []
  }

  ghost predicate InTable(t: seq<Entry>, level: nat, base: nat, it: Item)
    requires Wf(t, level) && TableBase(base, level)
  {
    base <= it.va < TableEnd(base, level) && Find(t, level, base, it.va) == Some(it)
  }

  /** Entries `i..n` all meet the range. */
  ghost predicate InRange(level: nat, base: nat, lo: nat, hi: nat, i: nat, n: nat) {
    i <= n <= 512 && forall j {:trigger Slot(base, level, j)} :: i <= j < n ==>
      Slot(base, level, j) <= hi && lo < Slot(base, level, j + 1)
  }

  /** The walk lists exactly the leaves that meet the range. */
  lemma {:induction false} VisitExact(t: seq<Entry>, level: nat, base: nat, lo: nat, hi: nat, i: nat, n: nat, it: Item)
    requires Wf(t, level) && TableBase(base, level) && lo <= hi && InRange(level, base, lo, hi, i, n)
    ensures it in Visit(t, level, base, lo, hi, i, n) <==>
      InTable(t, level, base, it) && i <= Idx(it.va, level) < n && Touches(it, lo, hi)
    decreases level, n - i, 0
  {
    if i < n {
      assert Slot(base, level, i) <= hi && lo < Slot(base, level, i + 1);
      VisitExact(t, level, base, lo, hi, i + 1, n, it);
      EntryExact(t, level, base, lo, hi, i, it);
    }
  }

  lemma AllInRange(base: nat, level: nat, lo: nat, hi: nat)
    requires TableBase(base, level) && base <= hi && lo < TableEnd(base, level) && lo <= hi
    ensures First(base, level, lo) <= Last(base, level, hi) < 512
    ensures InRange(level, base, lo, hi, First(base, level, lo), Last(base, level, hi) + 1)
  {
    IndexRange(base, level, lo, hi, 0);
    forall j {:trigger Slot(base, level, j)} | First(base, level, lo) <= j < Last(base, level, hi) + 1
      ensures Slot(base, level, j) <= hi && lo < Slot(base, level, j + 1)
    {
      IndexRange(base, level, lo, hi, j);
    }
  }

  lemma {:induction false} EntryExact(t: seq<Entry>, level: nat, base: nat, lo: nat, hi: nat, i: nat, it: Item)
    requires Wf(t, level) && TableBase(base, level) && i < 512 && lo <= hi
    requires Slot(base, level, i) <= hi && lo < Slot(base, level, i + 1)
    ensures it in VisitEntry(t[i], level, base, lo, hi, i) <==>
      InTable(t, level, base, it) && Idx(it.va, level) == i && Touches(it, lo, hi)
    decreases level, 0, 1
  {
    hide Idx, Slot, Span, First, Last;
    SlotFacts(base, level, i);
    var va := Slot(base, level, i);
    if base <= it.va < TableEnd(base, level) { IdxFinds(base, level, it.va); }
    match t[i]
    case Invalid =>
    case Leaf(pa, flags) =>
    case Table(sub) => TableExact(t, level, base, lo, hi, i, it);
  }

  lemma {:induction false} TableExact(t: seq<Entry>, level: nat, base: nat, lo: nat, hi: nat, i: nat, it: Item)
    requires Wf(t, level) && TableBase(base, level) && i < 512 && lo <= hi && t[i].Table?
    requires Slot(base, level, i) <= hi && lo < Slot(base, level, i + 1)
    ensures it in VisitEntry(t[i], level, base, lo, hi, i) <==>
      InTable(t, level, base, it) && Idx(it.va, level) == i && Touches(it, lo, hi)
    decreases level, 0, 0
  {
    hide Idx, Slot, Span, First, Last, Visit, VisitEntry, Find, Touches;
    SlotFacts(base, level, i);
    var va, sub := Slot(base, level, i), t[i].entries;
    var first, last := First(va, level - 1, lo), Last(va, level - 1, hi);
    AllInRange(va, level - 1, lo, hi);
    TableVisit(t[i], level, base, lo, hi, i);
    VisitExact(sub, level - 1, va, lo, hi, first, last + 1, it);
    InSubTable(t, level, base, i, it);
    if InTable(sub, level - 1, va, it) && Touches(it, lo, hi) { TouchesInRange(sub, level - 1, va, lo, hi, it); }
  }

  lemma TableVisit(e: Entry, level: nat, base: nat, lo: nat, hi: nat, i: nat)
    requires EntryWf(e, level) && TableBase(base, level) && i < 512 && e.Table?
    ensures var va := Slot(base, level, i);
      && level > 0 && TableBase(va, level - 1)
      && var first, last := First(va, level - 1, lo), Last(va, level - 1, hi);
      first <= last < 512 ==>
        VisitEntry(e, level, base, lo, hi, i) == Visit(e.entries, level - 1, va, lo, hi, first, last + 1)
  {
    hide Idx, Slot, First, Last, Visit;
    SlotFacts(base, level, i);
  }

  lemma TouchesInRange(t: seq<Entry>, level: nat, base: nat, lo: nat, hi: nat, it: Item)
    requires Wf(t, level) && TableBase(base, level) && InTable(t, level, base, it) && Touches(it, lo, hi) && base <= hi
    requires lo < TableEnd(base, level) && lo <= hi
    ensures First(base, level, lo) <= Idx(it.va, level) <= Last(base, level, hi)
  {
    hide Idx, Slot, First, Last, Find, Wf;
    FindSlot(t, level, base, it);
    IndexRange(base, level, lo, hi, Idx(it.va, level));
  }

  lemma InSubTable(t: seq<Entry>, level: nat, base: nat, i: nat, it: Item)
    requires Wf(t, level) && TableBase(base, level) && i < 512 && t[i].Table?
    ensures level > 0 && Wf(t[i].entries, level - 1) && TableBase(Slot(base, level, i), level - 1)
    ensures InTable(t, level, base, it) && Idx(it.va, level) == i <==>
      InTable(t[i].entries, level - 1, Slot(base, level, i), it)
  {
    hide Idx, Slot, Span;
    SlotFacts(base, level, i);
    if base <= it.va < TableEnd(base, level) { IdxFinds(base, level, it.va); }
    if Slot(base, level, i) <= it.va < TableEnd(Slot(base, level, i), level - 1) { IdxUnique(base, level, it.va, i); }
  }

  /** A leaf that meets a range lies below an entry that meets it. */
  lemma FindSlot(t: seq<Entry>, level: nat, base: nat, it: Item)
    requires Wf(t, level) && TableBase(base, level) && InTable(t, level, base, it)
    ensures var j := Idx(it.va, level);
      j < 512 && Slot(base, level, j) <= it.va && it.va + Span(it.level) <= Slot(base, level, j + 1)
  {
    IdxFinds(base, level, it.va);
    var j := Idx(it.va, level);
    SlotFacts(base, level, j);
    if t[j].Table? { FindCovers(t[j].entries, level - 1, Slot(base, level, j), it.va); }
  }

  /** Successive leaves of the walk are disjoint and ascend. */
  ghost predicate Ascending(ls: seq<Item>) {
    forall a, b :: 0 <= a < b < |ls| ==> ls[a].va + Span(ls[a].level) <= ls[b].va
  }

  ghost predicate Within(ls: seq<Item>, from: nat, to: nat) {
    forall a :: 0 <= a < |ls| ==> from <= ls[a].va && ls[a].va + Span(ls[a].level) <= to
  }

  lemma AscendingJoined(x: seq<Item>, y: seq<Item>, from: nat, mid: nat, to: nat)
    requires Ascending(x) && Ascending(y) && Within(x, from, mid) && Within(y, mid, to) && from <= mid <= to
    ensures Ascending(x + y) && Within(x + y, from, to)
  {
  }

  lemma {:induction false} VisitAscends(t: seq<Entry>, level: nat, base: nat, lo: nat, hi: nat, i: nat, n: nat)
    requires Wf(t, level) && TableBase(base, level) && i <= n <= 512
    ensures Ascending(Visit(t, level, base, lo, hi, i, n))
    ensures Within(Visit(t, level, base, lo, hi, i, n), Slot(base, level, i), Slot(base, level, n))
    decreases level, n - i, 0
  {
    if i < n {
      EntryAscends(t[i], level, base, lo, hi, i);
      VisitAscends(t, level, base, lo, hi, i + 1, n);
      AscendingJoined(VisitEntry(t[i], level, base, lo, hi, i), Visit(t, level, base, lo, hi, i + 1, n),
                      Slot(base, level, i), Slot(base, level, i + 1), Slot(base, level, n));
    }
  }

  lemma {:induction false} EntryAscends(e: Entry, level: nat, base: nat, lo: nat, hi: nat, i: nat)
    requires EntryWf(e, level) && TableBase(base, level) && i < 512
    ensures Ascending(VisitEntry(e, level, base, lo, hi, i))
    ensures Within(VisitEntry(e, level, base, lo, hi, i), Slot(base, level, i), Slot(base, level, i + 1))
    decreases level, 0, 1
  {
    hide Idx, Slot, First, Last;
    SlotFacts(base, level, i);
    if e.Table? {
      var va := Slot(base, level, i);
      var first, last := First(va, level - 1, lo), Last(va, level - 1, hi);
      if first <= last < 512 {
        VisitAscends(e.entries, level - 1, va, lo, hi, first, last + 1);
        SlotBounds(va, level - 1, first, last + 1);
      }
    }
  }

  lemma SlotBounds(base: nat, level: nat, i: nat, n: nat)
    requires i <= n <= 512
    ensures base <= Slot(base, level, i) <= Slot(base, level, n) <= TableEnd(base, level)
  {
  }

  // ----- the iterator over leaves -----

  /** A table on the stack with the entries still to visit. */
  datatype Frame = Frame(t: seq<Entry>, level: nat, base: nat, i: nat, n: nat)

  datatype Step = Finished | Yield(item: Item) | Panic

  ghost predicate FrameOk(f: Frame, lo: nat, hi: nat) {
    Wf(f.t, f.level) && TableBase(f.base, f.level) && InRange(f.level, f.base, lo, hi, f.i, f.n)
  }

  ghost predicate StackOk(stack: seq<Frame>, lo: nat, hi: nat) {
    lo <= hi && |stack| <= 3 && forall j {:trigger stack[j]} :: 0 <= j < |stack| ==>
      FrameOk(stack[j], lo, hi) && stack[j].level == 2 - j
  }

  /** What is still to come: the top of the stack first. */
  ghost function Remaining(stack: seq<Frame>, lo: nat, hi: nat): seq<Item>
    requires StackOk(stack, lo, hi)
    decreases |stack|
  {
    if stack == [] then []
    else
      var f := stack[|stack| - 1];
      Visit(f.t, f.level, f.base, lo, hi, f.i, f.n) + Remaining(stack[..|stack| - 1], lo, hi)
  }

  lemma Popped(stack: seq<Frame>, lo: nat, hi: nat)
    requires StackOk(stack, lo, hi) && stack != [] && stack[|stack| - 1].i == stack[|stack| - 1].n
    ensures StackOk(stack[..|stack| - 1], lo, hi) && Remaining(stack, lo, hi) == Remaining(stack[..|stack| - 1], lo, hi)
  {
    assert forall j :: 0 <= j < |stack| - 1 ==> stack[..|stack| - 1][j] == stack[j];
  }

  lemma TopOk(stack: seq<Frame>, lo: nat, hi: nat)
    requires StackOk(stack, lo, hi) && stack != []
    ensures var f := stack[|stack| - 1]; f.i <= f.n && f.level == 3 - |stack| && |stack| <= 3 && lo <= hi
  {
  }

  lemma NoneLeft(lo: nat, hi: nat)
    requires StackOk([], lo, hi)
    ensures Remaining([], lo, hi) == []
  {
  }

  /** Taking the next entry of the top table. */
  lemma Consumed(stack: seq<Frame>, lo: nat, hi: nat)
    requires StackOk(stack, lo, hi) && stack != [] && stack[|stack| - 1].i < stack[|stack| - 1].n
    ensures var f := stack[|stack| - 1];
      var stack' := stack[|stack| - 1 := f.(i := f.i + 1)];
      && f.i < 512 && |f.t| == 512 && EntryWf(f.t[f.i], f.level) && TableBase(f.base, f.level)
      && Slot(f.base, f.level, f.i) <= hi && lo < Slot(f.base, f.level, f.i + 1)
      && StackOk(stack', lo, hi)
      && Remaining(stack, lo, hi) == VisitEntry(f.t[f.i], f.level, f.base, lo, hi, f.i) + Remaining(stack', lo, hi)
      && (f.t[f.i].Invalid? ==> Remaining(stack, lo, hi) == Remaining(stack', lo, hi))
      && (f.t[f.i].Leaf? ==>
            Remaining(stack, lo, hi) ==
            [Item(f.level, Slot(f.base, f.level, f.i), f.t[f.i].pa, f.t[f.i].flags)] + Remaining(stack', lo, hi))
  {
    hide Slot, EntryWf, Visit, VisitEntry, Wf;
    var top, f := |stack| - 1, stack[|stack| - 1];
    var stack' := stack[top := f.(i := f.i + 1)];
    assert FrameOk(f, lo, hi) && f.i < 512;
    assert Slot(f.base, f.level, f.i) <= hi;
    assert FrameOk(stack'[top], lo, hi);
    assert stack'[..top] == stack[..top];
    VisitSplit(f, lo, hi, Remaining(stack[..top], lo, hi));
  }

  lemma VisitSplit(f: Frame, lo: nat, hi: nat, after: seq<Item>)
    requires FrameOk(f, lo, hi) && f.i < f.n
    ensures |f.t| == 512 && EntryWf(f.t[f.i], f.level)
    ensures var sub := VisitEntry(f.t[f.i], f.level, f.base, lo, hi, f.i);
      var rest := Visit(f.t, f.level, f.base, lo, hi, f.i + 1, f.n) + after;
      && Visit(f.t, f.level, f.base, lo, hi, f.i, f.n) + after == sub + rest
      && (f.t[f.i].Invalid? ==> sub + rest == rest)
      && (f.t[f.i].Leaf? ==> sub == [Item(f.level, Slot(f.base, f.level, f.i), f.t[f.i].pa, f.t[f.i].flags)])
  {
    hide Slot;
    assert f.t[f.i] == f.t[f.i];
  }

  lemma SubTable(e: Entry, level: nat)
    requires EntryWf(e, level) && e.Table?
    ensures level > 0 && Wf(e.entries, level - 1)
  {
  }

  lemma Entered(e: Entry, level: nat, base: nat, lo: nat, hi: nat, i: nat)
    requires EntryWf(e, level) && TableBase(base, level) && i < 512 && e.Table? && lo <= hi
    requires Slot(base, level, i) <= hi && lo < Slot(base, level, i + 1)
    ensures var va := Slot(base, level, i);
      && level > 0
      && var g := Frame(e.entries, level - 1, va, First(va, level - 1, lo), Last(va, level - 1, hi) + 1);
      && FrameOk(g, lo, hi)
      && VisitEntry(e, level, base, lo, hi, i) == Visit(g.t, g.level, g.base, lo, hi, g.i, g.n)
  {
    hide Slot, Idx, First, Last, Visit, VisitEntry, Wf, EntryWf, InRange, TableBase, TableEnd;
    TableVisit(e, level, base, lo, hi, i);
    SubTable(e, level);
    SlotFacts(base, level, i);
    AllInRange(Slot(base, level, i), level - 1, lo, hi);
  }

  /** Entering the sub-table of the entry just taken. */
  lemma Descended(stack: seq<Frame>, lo: nat, hi: nat, f: Frame, i: nat)
    requires StackOk(stack, lo, hi) && stack != [] && f.level == stack[|stack| - 1].level && i < 512 && |f.t| == 512
    requires EntryWf(f.t[i], f.level) && f.t[i].Table? && TableBase(f.base, f.level)
    requires Slot(f.base, f.level, i) <= hi && lo < Slot(f.base, f.level, i + 1)
    ensures var va := Slot(f.base, f.level, i);
      f.level > 0 &&
      var g := Frame(f.t[i].entries, f.level - 1, va, First(va, f.level - 1, lo), Last(va, f.level - 1, hi) + 1);
      StackOk(stack + [g], lo, hi) &&
      Remaining(stack + [g], lo, hi) == VisitEntry(f.t[i], f.level, f.base, lo, hi, i) + Remaining(stack, lo, hi)
  {
    hide Slot, Idx, First, Last, Visit, VisitEntry, Wf, EntryWf, TableBase, FrameOk, StackOk, Remaining;
    TopOk(stack, lo, hi);
    Entered(f.t[i], f.level, f.base, lo, hi, i);
    var va := Slot(f.base, f.level, i);
    Pushed(stack, lo, hi, Frame(f.t[i].entries, f.level - 1, va, First(va, f.level - 1, lo),
                                Last(va, f.level - 1, hi) + 1));
  }

  lemma Pushed(stack: seq<Frame>, lo: nat, hi: nat, g: Frame)
    requires StackOk(stack, lo, hi) && stack != [] && FrameOk(g, lo, hi) && g.level + 1 == stack[|stack| - 1].level
    ensures StackOk(stack + [g], lo, hi)
    ensures Remaining(stack + [g], lo, hi) == Visit(g.t, g.level, g.base, lo, hi, g.i, g.n) + Remaining(stack, lo, hi)
  {
    hide FrameOk, Visit;
    assert (stack + [g])[..|stack|] == stack;
    assert stack[|stack| - 1].level == 3 - |stack|;
  }

  function Left(stack: seq<Frame>, j: nat): int {
    if j < |stack| then stack[j].n - stack[j].i else 0
  }

  class LeavesMut {
    const lo: nat
    const hi: nat
    var stack: seq<Frame>

    ghost predicate Valid()
      reads this
    {
      StackOk(stack, lo, hi)
    }

    /** `LeavesMut::new` on the addresses `start..end`; an empty range gives an iterator that has ended. */
    constructor (root: seq<Entry>, start: nat, end: nat)
      requires Wf(root, 2) && end <= TOP
      ensures Valid() && Remaining(stack, lo, hi) == Leaves(root, start, end)
      ensures start < end ==> lo == start && hi == end - 1
    {
      hide Wf, Slot, Idx, First, Last, Visit;
      if start >= end {
        lo, hi, stack := 0, 0, [];
      } else {
        lo, hi := start, end - 1;
        RootTable();
        AllInRange(0, 2, start, end - 1);
        stack := [Frame(root, 2, 0, First(0, 2, start), Last(0, 2, end - 1) + 1)];
      }
      new;
      assert start < end ==> stack[..0] == [];
    }

    /** `LeavesMut::next`. */
    method Next() returns (r: Step)
      requires Valid()
      modifies this`stack
      ensures Valid()
      ensures r.Panic? ==> var ls := Remaining(old(stack), lo, hi); ls != [] && ls[0].va < lo
      ensures r.Yield? ==> lo <= r.item.va <= hi && Remaining(old(stack), lo, hi) == [r.item] + Remaining(stack, lo, hi)
      ensures r.Finished? ==> Remaining(old(stack), lo, hi) == []
    {
      hide Remaining, Slot, First, Last, VisitEntry, EntryWf, TableBase, StackOk;
      while |stack| > 0
        invariant Valid() && Remaining(stack, lo, hi) == Remaining(old(stack), lo, hi)
        decreases Left(stack, 0), Left(stack, 1), Left(stack, 2), |stack|
      {
        TopOk(stack, lo, hi);
        var top := |stack| - 1;
        var f := stack[top];
        if f.i == f.n {
          Popped(stack, lo, hi);
          stack := stack[..top];
        } else {
          Consumed(stack, lo, hi);
          var e, va := f.t[f.i], Slot(f.base, f.level, f.i);
          stack := stack[top := f.(i := f.i + 1)];
          match e
          case Invalid =>
          case Leaf(pa, flags) =>
            if !(lo <= va <= hi) { return Panic; }
            return Yield(Item(f.level, va, pa, flags));
          case Table(sub) =>
            Descended(stack, lo, hi, f, f.i);
            stack := stack + [Frame(sub, f.level - 1, va, First(va, f.level - 1, lo), Last(va, f.level - 1, hi) + 1)];
        }
      }
      NoneLeft(lo, hi);
      r := Finished;
    }
  }

  /** The leaves that meet `start..end`. */
  ghost function Leaves(root: seq<Entry>, start: nat, end: nat): seq<Item>
    requires Wf(root, 2) && end <= TOP
  {
    if start >= end then []
    else
      AllInRange(0, 2, start, end - 1);
      Visit(root, 2, 0, start, end - 1, First(0, 2, start), Last(0, 2, end - 1) + 1)
  }

  lemma RootTable()
    ensures TableBase(0, 2) && TableEnd(0, 2) == TOP
  {
  }

  /** The iterator yields exactly the leaves that meet the range, each once, in ascending order. */
  lemma LeavesExact(root: seq<Entry>, start: nat, end: nat, it: Item)
    requires Wf(root, 2) && end <= TOP
    ensures it in Leaves(root, start, end) <==> InTable(root, 2, 0, it) && start < end && Touches(it, start, end - 1)
    ensures Ascending(Leaves(root, start, end))
  {
    hide Idx, Slot, Span, Visit, Find, Wf;
    if start < end {
      var lo, hi := start, end - 1;
      RootTable();
      AllInRange(0, 2, lo, hi);
      VisitExact(root, 2, 0, lo, hi, First(0, 2, lo), Last(0, 2, hi) + 1, it);
      VisitAscends(root, 2, 0, lo, hi, First(0, 2, lo), Last(0, 2, hi) + 1);
      if InTable(root, 2, 0, it) && Touches(it, lo, hi) { TouchesInRange(root, 2, 0, lo, hi, it); }
    }
  }

  /** The range assertion of the iterator holds on the whole walk exactly when no leaf begins before the
      range and reaches into it; then the walk is exactly the leaves that begin in the range. */
  lemma NoPanicIff(root: seq<Entry>, start: nat, end: nat)
    requires Wf(root, 2) && start < end <= TOP
    ensures (forall it :: it in Leaves(root, start, end) ==> start <= it.va < end) <==>
      match Find(root, 2, 0, start) case None => true case Some(it) => it.va == start
    ensures (forall it :: it in Leaves(root, start, end) ==> start <= it.va < end) ==>
      forall it :: it in Leaves(root, start, end) <==> InTable(root, 2, 0, it) && start <= it.va < end
  {
    hide Idx, Slot, Visit, Find, Wf, Leaves;
    RootTable();
    var f := Find(root, 2, 0, start);
    if f.Some? {
      FindCovers(root, 2, 0, start);
      LeavesExact(root, start, end, f.value);
    }
    forall it ensures it in Leaves(root, start, end) <==> InTable(root, 2, 0, it) && Touches(it, start, end - 1) {
      LeavesExact(root, start, end, it);
    }
    forall it | InTable(root, 2, 0, it) && it.va < start && Touches(it, start, end - 1) ensures f == Some(it) {
      FindCovers(root, 2, 0, it.va);
    }
  }

  /** A table on which the assertion fails: one leaf of 1 GiB, and a range that starts inside it. */
  lemma StraddlingLeafPanics(pa: nat, flags: set<Flag>)
    ensures var root := seq(512, _ => Invalid)[0 := Leaf(pa, flags)];
      Wf(root, 2) && exists it :: it in Leaves(root, 0x1000, 0x2000) && it.va < 0x1000
  {
    var root := seq(512, _ => Invalid)[0 := Leaf(pa, flags)];
    RootTable();
    assert Wf(root, 2) && Idx(0x1000, 2) == 0;
    assert Find(root, 2, 0, 0x1000) == Some(Item(2, 0, pa, flags));
    NoPanicIff(root, 0x1000, 0x2000);
    FindCovers(root, 2, 0, 0x1000);
    LeavesExact(root, 0x1000, 0x2000, Item(2, 0, pa, flags));
  }
}
