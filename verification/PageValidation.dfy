/** `PageTable::validate` and the `Entries` iterator below it, which also yields tables and holes. */
module PageValidation {
  import opened Options
  import opened Common
  import opened VirtualMemory
  import opened PageTree

  /** An entry with the level and the first address it stands for. */
  datatype Seen = Seen(level: nat, va: nat, e: Entry)

  datatype Verdict = Fine | NotMapped(va: nat) | Inaccessible(va: nat)

  // ----- what is required of an address -----

  /** The flags of a leaf, with C counted as W. */
  function Effective(flags: set<Flag>): set<Flag> {
    if C in flags then flags + {W} else flags
  }

  ghost predicate Accessible(t: seq<Entry>, level: nat, base: nat, x: nat, need: set<Flag>)
    requires Wf(t, level) && TableBase(base, level)
  {
    base <= x < TableEnd(base, level) && var f := Find(t, level, base, x); f.Some? && need <= Effective(f.value.flags)
  }

  /** Every address of `from..to` translates to a leaf with the required flags. */
  ghost predicate Served(t: seq<Entry>, level: nat, base: nat, from: nat, to: nat, need: set<Flag>)
    requires Wf(t, level) && TableBase(base, level)
  {
    forall x: nat {:trigger Accessible(t, level, base, x, need)} :: from <= x < to ==>
      Accessible(t, level, base, x, need)
  }

  /** `y` is the first address of `from..to` that is not served; `hole` says whether nothing translates it. */
  ghost predicate Unserved(t: seq<Entry>, level: nat, base: nat, from: nat, to: nat, need: set<Flag>, y: nat,
                           hole: bool)
    requires Wf(t, level) && TableBase(base, level)
  {
    && from <= y < to && base <= y < TableEnd(base, level)
    && Served(t, level, base, from, y, need) && !Accessible(t, level, base, y, need)
    && (hole <==> Find(t, level, base, y).None?)
  }

  // ----- the walk -----

  /** Entries `i..n` of a table and everything below them that meets `lo..=hi`, parents first. */
  ghost function Walk(t: seq<Entry>, level: nat, base: nat, lo: nat, hi: nat, i: nat, n: nat): seq<Seen>
    requires Wf(t, level) && TableBase(base, level) && i <= n <= 512
    decreases level, n - i, 0
  {
    if i == n then [] else WalkEntry(t[i], level, base, lo, hi, i) + Walk(t, level, base, lo, hi, i + 1, n)
  }

  ghost function WalkEntry(e: Entry, level: nat, base: nat, lo: nat, hi: nat, i: nat): seq<Seen>
    requires EntryWf(e, level) && TableBase(base, level) && i < 512
    decreases level, 0, 1
  {
    [Seen(level, Slot(base, level, i), e)] + Below(e, level, base, lo, hi, i)
  }

  ghost function Below(e: Entry, level: nat, base: nat, lo: nat, hi: nat, i: nat): seq<Seen>
    requires EntryWf(e, level) && TableBase(base, level) && i < 512
    decreases level, 0, 0
  {
    if !e.Table? then []
    else
      SlotFacts(base, level, i);
      var va := Slot(base, level, i);
      var first, last := First(va, level - 1, lo), Last(va, level - 1, hi);
      if first <= last < 512 then Walk(e.entries, level - 1, va, lo, hi, first, last + 1) else []
  }

  /** The check `validate` makes of one entry. */
  predicate Good(s: Seen, need: set<Flag>) {
    match s.e
    case Invalid => false
    case Leaf(_, flags) => need <= Effective(flags)
    case Table(_) => true
  }

  ghost function FirstBad(ls: seq<Seen>, need: set<Flag>): Option<Seen> {
    if ls == [] then None else if !Good(ls[0], need) then Some(ls[0]) else FirstBad(ls[1..], need)
  }

  lemma {:induction false} FirstBadJoined(a: seq<Seen>, b: seq<Seen>, need: set<Flag>)
    ensures FirstBad(a + b, need) == if FirstBad(a, need).Some? then FirstBad(a, need) else FirstBad(b, need)
  {
    if a == [] {
      assert a + b == b;
    } else {
      assert (a + b)[1..] == a[1..] + b;
      FirstBadJoined(a[1..], b, need);
    }
  }

  // ----- the walk finds the first bad address -----

  /** What the walk over entries `i..n` says about the addresses of `lo..=hi` below them. */
  ghost predicate Located(bad: Option<Seen>, t: seq<Entry>, level: nat, base: nat, lo: nat, from: nat, to: nat,
                          need: set<Flag>)
    requires Wf(t, level) && TableBase(base, level)
  {
    match bad
    case None => Served(t, level, base, from, to, need)
    case Some(s) => Unserved(t, level, base, from, to, need, Max(lo, s.va), s.e.Invalid?)
  }

  lemma {:induction false} WalkLocates(t: seq<Entry>, level: nat, base: nat, lo: nat, hi: nat, i: nat, n: nat,
                                       need: set<Flag>)
    requires Wf(t, level) && TableBase(base, level) && lo <= hi && i < n && InRange(level, base, lo, hi, i, n)
    ensures Located(FirstBad(Walk(t, level, base, lo, hi, i, n), need), t, level, base, lo,
                    Max(lo, Slot(base, level, i)), Min(hi + 1, Slot(base, level, n)), need)
    decreases level, n - i, 0
  {
    hide Slot, TableBase, WalkEntry, Located, Find, Accessible;
    assert Slot(base, level, i) <= hi && lo < Slot(base, level, i + 1);
    var head, tail := WalkEntry(t[i], level, base, lo, hi, i), Walk(t, level, base, lo, hi, i + 1, n);
    EntryLocates(t, level, base, lo, hi, i, need);
    FirstBadJoined(head, tail, need);
    SlotOrder(base, level, i, i + 1);
    SlotOrder(base, level, i + 1, n);
    if i + 1 < n {
      assert Slot(base, level, i + 1) <= hi;
      WalkLocates(t, level, base, lo, hi, i + 1, n, need);
      LocatedJoined(FirstBad(head, need), FirstBad(tail, need), t, level, base, lo, Max(lo, Slot(base, level, i)),
                    Slot(base, level, i + 1), Min(hi + 1, Slot(base, level, n)), need);
    } else {
      assert tail == [] && FirstBad(tail, need) == None;
    }
  }

  lemma LocatedJoined(a: Option<Seen>, b: Option<Seen>, t: seq<Entry>, level: nat, base: nat, lo: nat, from: nat,
                      mid: nat, to: nat, need: set<Flag>)
    requires Wf(t, level) && TableBase(base, level) && from <= mid <= to
    requires Located(a, t, level, base, lo, from, mid, need) && Located(b, t, level, base, lo, mid, to, need)
    ensures Located(if a.Some? then a else b, t, level, base, lo, from, to, need)
  {
    hide Find, Accessible, Wf, TableBase;
  }

  lemma {:induction false} EntryLocates(t: seq<Entry>, level: nat, base: nat, lo: nat, hi: nat, i: nat, need: set<Flag>)
    requires Wf(t, level) && TableBase(base, level) && lo <= hi && i < 512
    requires Slot(base, level, i) <= hi && lo < Slot(base, level, i + 1)
    ensures Located(FirstBad(WalkEntry(t[i], level, base, lo, hi, i), need), t, level, base, lo,
                    Max(lo, Slot(base, level, i)), Min(hi + 1, Slot(base, level, i + 1)), need)
    decreases level, 0, 1
  {
    hide Slot, Idx, Walk;
    SlotFacts(base, level, i);
    var va := Slot(base, level, i);
    forall x: nat {:trigger Accessible(t, level, base, x, need)} | va <= x < Slot(base, level, i + 1) && !t[i].Table?
      ensures base <= x < TableEnd(base, level) && (Find(t, level, base, x).None? <==> t[i].Invalid?)
      ensures Accessible(t, level, base, x, need) <==> Good(Seen(level, va, t[i]), need)
    {
      IdxUnique(base, level, x, i);
    }
    if t[i].Table? {
      TableLocates(t, level, base, lo, hi, i, need);
    } else {
      assert WalkEntry(t[i], level, base, lo, hi, i) == [Seen(level, va, t[i])];
      assert Accessible(t, level, base, Max(lo, va), need) <==> Good(Seen(level, va, t[i]), need);
      assert FirstBad([], need) == None;
    }
  }

  lemma {:induction false} TableLocates(t: seq<Entry>, level: nat, base: nat, lo: nat, hi: nat, i: nat, need: set<Flag>)
    requires Wf(t, level) && TableBase(base, level) && lo <= hi && i < 512 && t[i].Table?
    requires Slot(base, level, i) <= hi && lo < Slot(base, level, i + 1)
    ensures Located(FirstBad(WalkEntry(t[i], level, base, lo, hi, i), need), t, level, base, lo,
                    Max(lo, Slot(base, level, i)), Min(hi + 1, Slot(base, level, i + 1)), need)
    decreases level, 0, 0
  {
    hide Slot, Idx, First, Last, Walk, WalkEntry, FirstBad, Located, InRange, Accessible, Find;
    SlotFacts(base, level, i);
    var va := Slot(base, level, i);
    var first, last := First(va, level - 1, lo), Last(va, level - 1, hi);
    AllInRange(va, level - 1, lo, hi);
    TableFirst(t[i], level, base, lo, hi, i, need);
    WalkLocates(t[i].entries, level - 1, va, lo, hi, first, last + 1, need);
    Narrowed(va, level - 1, lo, hi);
    LocatedOutside(FirstBad(Below(t[i], level, base, lo, hi, i), need), t, level, base, i, lo, Max(lo, va),
                   Min(hi + 1, Slot(base, level, i + 1)), need);
  }

  /** A table entry itself is never at fault. */
  lemma TableFirst(e: Entry, level: nat, base: nat, lo: nat, hi: nat, i: nat, need: set<Flag>)
    requires EntryWf(e, level) && TableBase(base, level) && i < 512 && e.Table?
    ensures FirstBad(WalkEntry(e, level, base, lo, hi, i), need) == FirstBad(Below(e, level, base, lo, hi, i), need)
  {
    hide Below, Slot;
    assert WalkEntry(e, level, base, lo, hi, i)[1..] == Below(e, level, base, lo, hi, i);
  }

  lemma LocatedOutside(bad: Option<Seen>, t: seq<Entry>, level: nat, base: nat, i: nat, lo: nat, from: nat, to: nat,
                       need: set<Flag>)
    requires Wf(t, level) && TableBase(base, level) && i < 512 && t[i].Table?
    requires level > 0 && Wf(t[i].entries, level - 1) && TableBase(Slot(base, level, i), level - 1)
    requires Slot(base, level, i) <= from && to <= Slot(base, level, i + 1)
    requires Located(bad, t[i].entries, level - 1, Slot(base, level, i), lo, from, to, need)
    ensures Located(bad, t, level, base, lo, from, to, need)
  {
    hide Slot, Idx, Wf, TableBase, Find, Accessible;
    Nested(t, level, base, i, need);
  }

  /** No address of the range is outside the entries chosen in a table. */
  lemma Narrowed(base: nat, level: nat, lo: nat, hi: nat)
    requires TableBase(base, level) && base <= hi && lo < TableEnd(base, level) && lo <= hi
    ensures First(base, level, lo) <= Last(base, level, hi) < 512
    ensures Max(lo, Slot(base, level, First(base, level, lo))) == Max(lo, base)
    ensures Min(hi + 1, Slot(base, level, Last(base, level, hi) + 1)) == Min(hi + 1, TableEnd(base, level))
  {
    hide Slot, Idx, First, Last, TableBase;
    SlotFacts(base, level, 0);
    var a, b := Max(lo, base), Min(hi, TableEnd(base, level) - 1);
    IdxFinds(base, level, a);
    IdxFinds(base, level, b);
    IndexRange(base, level, lo, hi, Idx(a, level));
    IndexRange(base, level, lo, hi, Idx(b, level));
    SlotOrder(base, level, First(base, level, lo), Idx(a, level));
    SlotOrder(base, level, Idx(b, level) + 1, Last(base, level, hi) + 1);
    SlotBounds(base, level, First(base, level, lo), Last(base, level, hi) + 1);
    SlotBounds(base, level, 0, Idx(a, level));
  }

  /** A sub-table alone decides about its addresses. */
  lemma Nested(t: seq<Entry>, level: nat, base: nat, i: nat, need: set<Flag>)
    requires Wf(t, level) && TableBase(base, level) && i < 512 && t[i].Table?
    ensures var va, sub := Slot(base, level, i), t[i].entries;
      && level > 0 && Wf(sub, level - 1) && TableBase(va, level - 1) && va >= base
      && TableEnd(va, level - 1) == Slot(base, level, i + 1) <= TableEnd(base, level)
      && (forall x: nat
            {:trigger Accessible(t, level, base, x, need)} {:trigger Accessible(sub, level - 1, va, x, need)} ::
            va <= x < TableEnd(va, level - 1) ==>
              (Accessible(t, level, base, x, need) <==> Accessible(sub, level - 1, va, x, need)))
      && (forall x: nat {:trigger Find(t, level, base, x)} {:trigger Find(sub, level - 1, va, x)} ::
            va <= x < TableEnd(va, level - 1) ==> Find(t, level, base, x) == Find(sub, level - 1, va, x))
  {
    hide Slot, Idx, Find, Wf, TableBase;
    FindBelow(t, level, base, i);
  }

  // ----- the iterator -----

  /** The entries still to come: the top of the stack first. */
  ghost function Ahead(stack: seq<Frame>, lo: nat, hi: nat): seq<Seen>
    requires StackOk(stack, lo, hi)
    decreases |stack|
  {
    if stack == [] then []
    else
      var f := stack[|stack| - 1];
      Walk(f.t, f.level, f.base, lo, hi, f.i, f.n) + Ahead(stack[..|stack| - 1], lo, hi)
  }

  lemma SingleAhead(f: Frame, lo: nat, hi: nat)
    requires lo <= hi && FrameOk(f, lo, hi) && f.level == 2
    ensures StackOk([f], lo, hi) && Ahead([f], lo, hi) == Walk(f.t, f.level, f.base, lo, hi, f.i, f.n)
  {
    hide FrameOk;
    assert [f][..0] == [];
    assert Ahead([], lo, hi) == [];
  }

  lemma PoppedAhead(stack: seq<Frame>, lo: nat, hi: nat)
    requires StackOk(stack, lo, hi) && stack != [] && stack[|stack| - 1].i == stack[|stack| - 1].n
    ensures StackOk(stack[..|stack| - 1], lo, hi) && Ahead(stack, lo, hi) == Ahead(stack[..|stack| - 1], lo, hi)
  {
    assert forall j :: 0 <= j < |stack| - 1 ==> stack[..|stack| - 1][j] == stack[j];
  }

  /** The next entry of the top table, and what comes after it. */
  lemma ConsumedAhead(stack: seq<Frame>, lo: nat, hi: nat)
    requires StackOk(stack, lo, hi) && stack != [] && stack[|stack| - 1].i < stack[|stack| - 1].n
    ensures var f := stack[|stack| - 1];
      var stack' := stack[|stack| - 1 := f.(i := f.i + 1)];
      && f.i < 512 && |f.t| == 512 && EntryWf(f.t[f.i], f.level) && TableBase(f.base, f.level)
      && Slot(f.base, f.level, f.i) <= hi && lo < Slot(f.base, f.level, f.i + 1)
      && StackOk(stack', lo, hi)
      && Ahead(stack, lo, hi) == [Seen(f.level, Slot(f.base, f.level, f.i), f.t[f.i])] +
         (Below(f.t[f.i], f.level, f.base, lo, hi, f.i) + Ahead(stack', lo, hi))
      && (!f.t[f.i].Table? ==>
           Ahead(stack, lo, hi) == [Seen(f.level, Slot(f.base, f.level, f.i), f.t[f.i])] + Ahead(stack', lo, hi))
  {
    hide Slot, EntryWf, Remaining, Visit, VisitEntry, Walk, Below, Wf;
    Consumed(stack, lo, hi);
    var top, f := |stack| - 1, stack[|stack| - 1];
    var stack' := stack[top := f.(i := f.i + 1)];
    assert stack'[..top] == stack[..top];
    assert FrameOk(f, lo, hi);
    WalkSplit(f, lo, hi, Ahead(stack[..top], lo, hi));
    assert Ahead(stack', lo, hi) == Walk(f.t, f.level, f.base, lo, hi, f.i + 1, f.n) + Ahead(stack[..top], lo, hi);
  }

  lemma WalkSplit(f: Frame, lo: nat, hi: nat, after: seq<Seen>)
    requires FrameOk(f, lo, hi) && f.i < f.n
    ensures var s := Seen(f.level, Slot(f.base, f.level, f.i), f.t[f.i]);
      var sub := Below(f.t[f.i], f.level, f.base, lo, hi, f.i);
      var w := Walk(f.t, f.level, f.base, lo, hi, f.i + 1, f.n) + after;
      && Walk(f.t, f.level, f.base, lo, hi, f.i, f.n) + after == [s] + (sub + w)
      && (!f.t[f.i].Table? ==> sub == [] && sub + w == w)
  {
    hide Slot;
    assert f.t[f.i] == f.t[f.i];
  }

  lemma DescendedAhead(stack: seq<Frame>, lo: nat, hi: nat, f: Frame, i: nat)
    requires lo <= hi && StackOk(stack, lo, hi) && stack != [] && f.level == stack[|stack| - 1].level && i < 512
    requires |f.t| == 512
    requires EntryWf(f.t[i], f.level) && f.t[i].Table? && TableBase(f.base, f.level)
    requires Slot(f.base, f.level, i) <= hi && lo < Slot(f.base, f.level, i + 1)
    ensures var va := Slot(f.base, f.level, i);
      f.level > 0 &&
      var g := Frame(f.t[i].entries, f.level - 1, va, First(va, f.level - 1, lo), Last(va, f.level - 1, hi) + 1);
      StackOk(stack + [g], lo, hi) &&
      Ahead(stack + [g], lo, hi) == Below(f.t[i], f.level, f.base, lo, hi, i) + Ahead(stack, lo, hi)
  {
    hide Slot, Idx, First, Last, Walk, Visit, VisitEntry, Remaining, Ahead, StackOk, InRange, Wf, TableBase;
    Descended(stack, lo, hi, f, i);
    SlotFacts(f.base, f.level, i);
    var va := Slot(f.base, f.level, i);
    AllInRange(va, f.level - 1, lo, hi);
    PushedAhead(stack,
                Frame(f.t[i].entries, f.level - 1, va, First(va, f.level - 1, lo), Last(va, f.level - 1, hi) + 1), lo,
                hi);
  }

  lemma PushedAhead(stack: seq<Frame>, g: Frame, lo: nat, hi: nat)
    requires StackOk(stack, lo, hi) && StackOk(stack + [g], lo, hi)
    ensures FrameOk(g, lo, hi)
    ensures Ahead(stack + [g], lo, hi) == Walk(g.t, g.level, g.base, lo, hi, g.i, g.n) + Ahead(stack, lo, hi)
  {
    hide Walk, InRange, Wf, TableBase;
    assert (stack + [g])[..|stack|] == stack && (stack + [g])[|stack|] == g;
  }

  /** The table entry at the top of the stack has been yielded but not yet entered. */
  ghost predicate Paused(stack: seq<Frame>) {
    stack != [] && var f := stack[|stack| - 1]; f.i < f.n && f.i < |f.t| && f.t[f.i].Table?
  }

  class Entries {
    const lo: nat
    const hi: nat
    var stack: seq<Frame>
    var lastItemIsNonLeaf: bool

    ghost predicate Valid()
      reads this
    {
      StackOk(stack, lo, hi) && (lastItemIsNonLeaf ==> Paused(stack))
    }

    ghost function Rest(): seq<Seen>
      requires Valid()
      reads this
    {
      var ls := Ahead(stack, lo, hi);
      if lastItemIsNonLeaf && ls != [] then ls[1..] else ls
    }

    /** `Entries::new` on the addresses `start..end`; an empty range gives an iterator that has ended. */
    constructor (root: seq<Entry>, start: nat, end: nat)
      requires Wf(root, 2) && end <= TOP
      ensures Valid() && Rest() == WholeWalk(root, start, end)
      ensures start < end ==> lo == start && hi == end - 1
    {
      hide Wf, Slot, Idx, First, Last, Walk, Ahead;
      lastItemIsNonLeaf := false;
      if start >= end {
        lo, hi, stack := 0, 0, [];
      } else {
        lo, hi := start, end - 1;
        RootTable();
        AllInRange(0, 2, start, end - 1);
        stack := [Frame(root, 2, 0, First(0, 2, start), Last(0, 2, end - 1) + 1)];
      }
      new;
      if start < end { SingleAhead(stack[0], lo, hi); } else { NothingAhead(lo, hi); }
    }

    /** Entering the table that was yielded last. */
    method Enter()
      requires Valid() && lastItemIsNonLeaf
      modifies this
      ensures Valid() && !lastItemIsNonLeaf && Rest() == old(Rest())
    {
      hide Ahead, Slot, First, Last, Below, EntryWf, TableBase, StackOk;
      ConsumedAhead(stack, lo, hi);
      TopOk(stack, lo, hi);
      var top := |stack| - 1;
      var f := stack[top];
      var va := Slot(f.base, f.level, f.i);
      stack := stack[top := f.(i := f.i + 1)];
      DescendedAhead(stack, lo, hi, f, f.i);
      var below := f.level - 1;
      stack := stack + [Frame(f.t[f.i].entries, below, va, First(va, below, lo), Last(va, below, hi) + 1)];
      lastItemIsNonLeaf := false;
    }

    /** `Entries::next`. */
    method Next() returns (r: Option<Seen>)
      requires Valid()
      modifies this
      ensures Valid()
      ensures r.None? ==> old(Rest()) == []
      ensures r.Some? ==> old(Rest()) == [r.value] + Rest()
    {
      hide Ahead, Slot, First, Last, Below, EntryWf, TableBase, StackOk, Idx, Walk, InRange;
      if lastItemIsNonLeaf { Enter(); }
      while |stack| > 0
        invariant Valid() && !lastItemIsNonLeaf && Rest() == old(Rest())
        decreases |stack|
      {
        TopOk(stack, lo, hi);
        var top := |stack| - 1;
        var f := stack[top];
        if f.i == f.n {
          PoppedAhead(stack, lo, hi);
          stack := stack[..top];
        } else {
          ConsumedAhead(stack, lo, hi);
          var e, va := f.t[f.i], Slot(f.base, f.level, f.i);
          if e.Table? {
            lastItemIsNonLeaf := true;
          } else {
            stack := stack[top := f.(i := f.i + 1)];
          }
          return Some(Seen(f.level, va, e));
        }
      }
      NothingAhead(lo, hi);
      r := None;
    }
  }

  lemma NothingAhead(lo: nat, hi: nat)
    requires StackOk([], lo, hi)
    ensures Ahead([], lo, hi) == []
  {
  }

  /** `validate` on the addresses `start..end`: the answer is about every byte of the range, and a failure
      names the entry that stands for the first byte that is not accessible. */
  method Validate(root: seq<Entry>, start: nat, end: nat, need: set<Flag>) returns (r: Verdict)
    requires Wf(root, 2) && end <= TOP
    ensures r.Fine? <==> Served(root, 2, 0, start, end, need)
    ensures r.NotMapped? ==> Unserved(root, 2, 0, start, end, need, Max(start, r.va), true)
    ensures r.Inaccessible? ==> Unserved(root, 2, 0, start, end, need, Max(start, r.va), false)
  {
    hide Walk, Find, Wf, Slot, Idx, First, Last, StackOk, Ahead, WholeWalk;
    var it := new Entries(root, start, end);
    ghost var all := it.Rest();
    RootTable();
    RootLocates(root, start, end, need);
    while true
      invariant it.Valid() && fresh(it) && FirstBad(it.Rest(), need) == FirstBad(all, need)
      decreases |it.Rest()|
    {
      var s := it.Next();
      match s
      case None => return Fine;
      case Some(s) =>
        match s.e
        case Invalid => return NotMapped(s.va);
        case Leaf(pa, flags) =>
          if !(need <= Effective(flags)) { return Inaccessible(s.va); }
        case Table(_) =>
    }
  }

  /** Everything the iterator yields. */
  ghost function WholeWalk(root: seq<Entry>, start: nat, end: nat): seq<Seen>
    requires Wf(root, 2) && end <= TOP
  {
    if start >= end then []
    else
      AllInRange(0, 2, start, end - 1);
      Walk(root, 2, 0, start, end - 1, First(0, 2, start), Last(0, 2, end - 1) + 1)
  }

  lemma RootLocates(root: seq<Entry>, start: nat, end: nat, need: set<Flag>)
    requires Wf(root, 2) && end <= TOP
    ensures TableBase(0, 2)
    ensures Located(FirstBad(WholeWalk(root, start, end), need), root, 2, 0, start, start, end, need)
  {
    hide Walk, Find, Slot, Idx, First, Last, Located, FirstBad, Wf, InRange;
    RootTable();
    if start < end {
      var lo, hi := start, end - 1;
      AllInRange(0, 2, lo, hi);
      WalkLocates(root, 2, 0, lo, hi, First(0, 2, lo), Last(0, 2, hi) + 1, need);
      Narrowed(0, 2, lo, hi);
    } else {
      NothingLocated(root, start, end, need);
    }
  }

  lemma NothingLocated(root: seq<Entry>, start: nat, end: nat, need: set<Flag>)
    requires Wf(root, 2) && TableBase(0, 2) && start >= end
    ensures Located(FirstBad([], need), root, 2, 0, start, start, end, need)
  {
  }
}
