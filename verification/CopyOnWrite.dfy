/** Reference counts and copy-on-write over every history of operations. */
module CopyOnWrite {
  import opened Common
  import opened Options
  import opened VirtualMemory

  // ----- the reference: fork copies every page -----

  datatype EagerPage = EagerPage(bytes: Page, flags: set<Flag>)
  datatype Eager = Eager(spaces: set<nat>, pages: map<Key, EagerPage>, rom: map<nat, Page>)
  datatype EagerResult = EagerResult(e: Eager, out: Outcome)

  /** One operation when every space owns its pages. `enough` says whether memory sufficed. */
  function EagerStep(e: Eager, op: Op, enough: bool): EagerResult {
    match op
    case NewSpace(a) =>
      if enough then EagerResult(e.(spaces := e.spaces + {a}), Done) else EagerResult(e, Failed)
    case MapNew(k, perm, zeroed, _) =>
      if k in e.pages then EagerResult(e, if e.pages[k].flags * {U, R, W, X} == perm then Done else Failed)
      else if enough then
        EagerResult(e.(pages := e.pages[k := EagerPage(Fill(if zeroed then 0 else 5), perm + {V})]), Done)
      else EagerResult(e, Failed)
    case MapFixed(k, f, perm) =>
      if enough then
        var bytes := if f in e.rom then e.rom[f] else Fill(0);
        EagerResult(e.(pages := e.pages[k := EagerPage(bytes, perm + {V})]), Done)
      else EagerResult(e, Failed)
    case Clone(src, dst, v) =>
      if Key(src, v) !in e.pages then EagerResult(e, Done)
      else if U !in e.pages[Key(src, v)].flags then EagerResult(e, Failed)
      else EagerResult(e.(pages := e.pages[Key(dst, v) := e.pages[Key(src, v)]]), Done)
    case Fault(k) =>
      EagerResult(e, if k in e.pages && {U, W} <= e.pages[k].flags then Done else Failed)
    case Store(k, need, off, val) =>
      if k in e.pages && need <= e.pages[k].flags && off < |e.pages[k].bytes| then
        EagerResult(e.(pages := e.pages[k := e.pages[k].(bytes := e.pages[k].bytes[off := val])]), Done)
      else EagerResult(e, Failed)
    case Unmap(k) => EagerResult(e.(pages := e.pages - {k}), Done)
    case FreeTable(n) => EagerResult(if n.Root? then e.(spaces := e.spaces - {n.asid}) else e, Done)
  }

  /** Copy-on-write is a suspended write permission. */
  function Logical(flags: set<Flag>): set<Flag> {
    if C in flags then flags - {C} + {W} else flags
  }

  /** What space `k.asid` sees at page `k.vpn`. */
  function PageAt(s: State, k: Key): EagerPage
    requires k in s.leaves
  {
    EagerPage(Contents(s, s.leaves[k].frame), Logical(s.leaves[k].flags))
  }

  /** Both machines map page `k` alike: same bytes, same logical permissions, or not at all. */
  ghost predicate Agrees(s: State, e: Eager, k: Key) {
    (k in e.pages <==> k in s.leaves) && (k in s.leaves ==> e.pages[k] == PageAt(s, k))
  }

  ghost predicate SameSpace(s: State, e: Eager, a: nat) {
    Root(a) in s.tables <==> a in e.spaces
  }

  /** The two machines are indistinguishable to every space. */
  ghost predicate Simulates(s: State, e: Eager) {
    && (forall k {:trigger Agrees(s, e, k)} :: Agrees(s, e, k))
    && (forall a {:trigger SameSpace(s, e, a)} :: SameSpace(s, e, a))
    && e.rom == s.rom
  }

  // ----- which steps may run out of memory without losing a reference -----

  function Missing(s: State, k: Key): nat {
    (if L1(k) in s.tables then 0 else 1) + (if L0(k) in s.tables then 0 else 1)
  }

  /** A copy-on-write break that must copy finds a free frame, and a clone finds its table pages. */
  predicate Clean(s: State, op: Op) {
    match op
    case Fault(k) => CanBreak(s, k)
    case Store(k, _, _, _) => CanBreak(s, k)
    case Clone(src, dst, v) =>
      Key(src, v) in s.leaves && U in s.leaves[Key(src, v)].flags ==> Missing(s, Key(dst, v)) <= |s.free|
    case _ => true
  }

  /** A store to the page has to copy it first. */
  predicate MustCopy(s: State, k: Key) {
    k in s.leaves && C in s.leaves[k].flags && s.leaves[k].frame in s.count && s.count[s.leaves[k].frame] != 1
  }

  predicate CanBreak(s: State, k: Key) {
    MustCopy(s, k) ==> s.free != []
  }

  // ----- counting -----

  lemma RefsAfterAdd(leaves: map<Key, Pte>, k: Key, e: Pte, f: nat)
    requires k !in leaves
    ensures Refs(leaves[k := e], f) == Refs(leaves, f) + (if e.frame == f then {k} else {})
  {
  }

  lemma RefsAfterRemove(leaves: map<Key, Pte>, k: Key, f: nat)
    requires k in leaves
    ensures Refs(leaves - {k}, f) == Refs(leaves, f) - (if leaves[k].frame == f then {k} else {})
  {
  }

  lemma RefsAfterFlags(leaves: map<Key, Pte>, k: Key, flags: set<Flag>, f: nat)
    requires k in leaves
    ensures Refs(leaves[k := Pte(leaves[k].frame, flags)], f) == Refs(leaves, f)
  {
  }

  lemma TableRefsAfterAdd(tables: map<Node, nat>, n: Node, g: nat, f: nat)
    requires n !in tables
    ensures TableRefs(tables[n := g], f) == TableRefs(tables, f) + (if g == f then {n} else {})
  {
  }

  lemma TableRefsAfterRemove(tables: map<Node, nat>, n: Node, f: nat)
    requires n in tables
    ensures TableRefs(tables - {n}, f) == TableRefs(tables, f) - (if tables[n] == f then {n} else {})
  {
  }

  lemma CountedAt(s: State, f: nat)
    requires Inv(s) && f in s.heap
    ensures Counted(s.count, s.leaves, s.tables, f) && (f in s.free <==> s.count[f] == 0)
  {
  }

  lemma LeafFrame(s: State, k: Key)
    requires Inv(s) && k in s.leaves && s.leaves[k].frame in s.heap
    ensures var f := s.leaves[k].frame;
      f in s.count && TableRefs(s.tables, f) == {} && k in Refs(s.leaves, f) && f !in s.free
      && 0 < s.count[f] == |Refs(s.leaves, f)| < NON_SHAREABLE
  {
    CountedAt(s, s.leaves[k].frame);
    assert k in Refs(s.leaves, s.leaves[k].frame);
  }

  /** Frames on the free list are named by no entry and hold no table. */
  lemma FreeUnnamed(s: State, f: nat)
    requires Inv(s) && f in s.free
    ensures f in s.heap && f in s.count && s.count[f] == 0 && Refs(s.leaves, f) == {} && TableRefs(s.tables, f) == {}
    ensures forall k :: k in s.leaves ==> s.leaves[k].frame != f
  {
    CountedAt(s, f);
    assert forall k :: k in s.leaves && s.leaves[k].frame == f ==> k in Refs(s.leaves, f);
  }

  lemma HeadInHeap(s: State)
    requires Inv(s) && s.free != []
    ensures s.free[0] in s.heap
  {
  }

  /** A frame holding a table page is named by no entry. */
  lemma TableFrame(s: State, n: Node)
    requires Inv(s) && n in s.tables
    ensures var f := s.tables[n];
      f in s.heap && f !in s.free && f in s.count && s.count[f] == NON_SHAREABLE
    ensures forall k :: k in s.leaves ==> s.leaves[k].frame != s.tables[n]
  {
    var f := s.tables[n];
    CountedAt(s, f);
    assert n in TableRefs(s.tables, f);
    assert forall k :: k in s.leaves && s.leaves[k].frame == f ==> k in Refs(s.leaves, f);
  }

  // ----- how many entries one frame can have -----

  lemma {:induction false} KeysBelow(keys: set<Key>, nodes: set<Node>)
    requires forall k :: k in keys ==> L0(k) in nodes && k.vpn.i0 < 512
    ensures |keys| <= 512 * |nodes|
    decreases |nodes|
  {
    if keys != {} {
      var k0 :| k0 in keys;
      var n := L0(k0);
      var mine := set k | k in keys && L0(k) == n;
      SlotsBound(mine, n);
      var rest := keys - mine;
      KeysBelow(rest, nodes - {n});
      assert keys == mine + rest;
    }
  }

  /** The entries below one level-0 table have distinct indices in it. */
  lemma SlotsBound(keys: set<Key>, n: Node)
    requires forall k :: k in keys ==> L0(k) == n && k.vpn.i0 < 512
    ensures |keys| <= 512
  {
    SlotsBoundUpTo(keys, n, 512);
  }

  lemma {:induction false} SlotsBoundUpTo(keys: set<Key>, n: Node, m: nat)
    requires m <= 512
    requires forall k :: k in keys ==> L0(k) == n && k.vpn.i0 < m
    ensures |keys| <= m
  {
    if keys != {} {
      var k0 :| k0 in keys;
      var rest := keys - {Key(k0.asid, k0.vpn.(i0 := m - 1))};
      SlotsBoundUpTo(rest, n, m - 1);
    }
  }

  lemma {:induction false} InjectiveSize(tables: map<Node, nat>, frames: set<nat>)
    requires forall n :: n in tables ==> tables[n] in frames
    requires forall n, m :: n in tables && m in tables && tables[n] == tables[m] ==> n == m
    ensures |tables| <= |frames|
    decreases |tables|
  {
    if tables != map[] {
      var n :| n in tables;
      var rest := tables - {n};
      assert |rest| == |tables| - 1 by { assert rest.Keys == tables.Keys - {n}; }
      InjectiveSize(rest, frames - {tables[n]});
    }
  }

  lemma TablesBounded(heap: set<nat>, count: map<nat, nat>, leaves: map<Key, Pte>, tables: map<Node, nat>)
    requires CountsOk(heap, count, leaves, tables)
    ensures |tables| <= |heap|
  {
    forall n, m | n in tables && m in tables && tables[n] == tables[m] ensures n == m {
      var refs := TableRefs(tables, tables[n]);
      assert Counted(count, leaves, tables, tables[n]);
      assert n in refs && m in refs && |refs| == 1;
      assert |refs - {n}| == 0;
      assert m !in refs - {n};
    }
    InjectiveSize(tables, heap);
  }

  /** The 32-bit count never reaches the non-shareable mark. */
  lemma RefsBounded(s: State, keys: set<Key>)
    requires Inv(s)
    requires forall k :: k in keys ==> HasPath(s.tables, k)
    ensures |keys| < NON_SHAREABLE
  {
    KeysBelow(keys, s.tables.Keys);
    TablesBounded(s.heap, s.count, s.leaves, s.tables);
  }

  // ----- the parts of the invariant under one change -----

  lemma Popped(heap: set<nat>, count: map<nat, nat>, free: seq<nat>, c: nat)
    requires FreeListOk(heap, count, free) && free != [] && c > 0
    ensures FreeListOk(heap, count[free[0] := c], free[1..])
  {
    assert free == [free[0]] + free[1..];
    forall i, j | 0 <= i < j < |free| - 1 ensures Differ(free[1..], i, j) { assert Differ(free, i + 1, j + 1); }
    forall j | 0 <= j < |free| - 1 ensures free[1..][j] != free[0] { assert Differ(free, 0, j + 1); }
  }

  lemma Pushed(heap: set<nat>, count: map<nat, nat>, free: seq<nat>, f: nat)
    requires FreeListOk(heap, count, free) && f in heap && f !in free
    ensures FreeListOk(heap, count[f := 0], [f] + free)
  {
    assert forall g :: g in [f] + free <==> g == f || g in free;
    forall i, j | 0 <= i < j < |free| + 1 ensures Differ([f] + free, i, j) {
      if i > 0 { assert Differ(free, i - 1, j - 1); }
    }
  }

  lemma Recounted(heap: set<nat>, count: map<nat, nat>, free: seq<nat>, f: nat, c: nat)
    requires FreeListOk(heap, count, free) && f in heap && f !in free && c > 0
    ensures FreeListOk(heap, count[f := c], free)
  {
  }

  lemma CountsTableAdded(heap: set<nat>, count: map<nat, nat>, leaves: map<Key, Pte>, tables: map<Node, nat>, n: Node,
                         f: nat)
    requires CountsOk(heap, count, leaves, tables)
    requires n !in tables && f in heap && Refs(leaves, f) == {} && TableRefs(tables, f) == {}
    ensures CountsOk(heap, count[f := NON_SHAREABLE], leaves, tables[n := f])
  {
    forall g | g in heap ensures Counted(count[f := NON_SHAREABLE], leaves, tables[n := f], g) {
      assert Counted(count, leaves, tables, g);
      TableRefsAfterAdd(tables, n, f, g);
    }
  }

  lemma CountsTableRemoved(heap: set<nat>, count: map<nat, nat>, leaves: map<Key, Pte>, tables: map<Node, nat>, n: Node)
    requires CountsOk(heap, count, leaves, tables) && n in tables
    ensures tables[n] in count && count[tables[n]] == NON_SHAREABLE && Refs(leaves, tables[n]) == {}
    ensures CountsOk(heap, count[tables[n] := 0], leaves, tables - {n})
  {
    var f := tables[n];
    assert Counted(count, leaves, tables, f);
    assert n in TableRefs(tables, f);
    assert |TableRefs(tables, f) - {n}| == 0;
    forall g | g in heap ensures Counted(count[f := 0], leaves, tables - {n}, g) {
      assert Counted(count, leaves, tables, g);
      TableRefsAfterRemove(tables, n, g);
    }
  }

  lemma CountsLeafAdded(heap: set<nat>, count: map<nat, nat>, leaves: map<Key, Pte>, tables: map<Node, nat>, k: Key,
                        e: Pte)
    requires CountsOk(heap, count, leaves, tables) && k !in leaves && e.frame in heap
    requires TableRefs(tables, e.frame) == {} && e.frame in count && count[e.frame] + 1 < NON_SHAREABLE
    ensures CountsOk(heap, count[e.frame := count[e.frame] + 1], leaves[k := e], tables)
  {
    forall g | g in heap
      ensures Counted(count[e.frame := count[e.frame] + 1], leaves[k := e], tables, g)
    {
      assert Counted(count, leaves, tables, g);
      RefsAfterAdd(leaves, k, e, g);
    }
  }

  lemma CountsLeafRemoved(heap: set<nat>, count: map<nat, nat>, leaves: map<Key, Pte>, tables: map<Node, nat>, k: Key)
    requires CountsOk(heap, count, leaves, tables) && k in leaves && leaves[k].frame in heap
    requires TableRefs(tables, leaves[k].frame) == {}
    ensures var f := leaves[k].frame;
      f in count && count[f] > 0 && CountsOk(heap, count[f := count[f] - 1], leaves - {k}, tables)
  {
    var f := leaves[k].frame;
    assert Counted(count, leaves, tables, f);
    assert k in Refs(leaves, f);
    forall g | g in heap ensures Counted(count[f := count[f] - 1], leaves - {k}, tables, g) {
      assert Counted(count, leaves, tables, g);
      RefsAfterRemove(leaves, k, g);
    }
  }

  /** Entries that name no heap frame, and flags, do not count. */
  lemma CountsUnaffected(heap: set<nat>, count: map<nat, nat>, leaves: map<Key, Pte>, tables: map<Node, nat>,
                         leaves': map<Key, Pte>)
    requires CountsOk(heap, count, leaves, tables)
    requires forall g :: g in heap ==> Refs(leaves', g) == Refs(leaves, g)
    ensures CountsOk(heap, count, leaves', tables)
  {
    forall g | g in heap ensures Counted(count, leaves', tables, g) { assert Counted(count, leaves, tables, g); }
  }

  lemma EntriesSet(heap: set<nat>, leaves: map<Key, Pte>, k: Key, e: Pte)
    requires EntriesOk(heap, leaves) && EntryOk(heap, e)
    requires forall l :: l in leaves && l != k && leaves[l].frame == e.frame ==>
      && W !in leaves[l].flags && W !in e.flags
      && (U in leaves[l].flags || U in e.flags ==> l.vpn == k.vpn)
    ensures EntriesOk(heap, leaves[k := e])
  {
    var leaves' := leaves[k := e];
    forall i, j | i in leaves' && j in leaves' ensures Exclusive(leaves', i, j) {
      if i != k && j != k { assert Exclusive(leaves, i, j); }
    }
  }

  lemma EntriesRemoved(heap: set<nat>, leaves: map<Key, Pte>, k: Key)
    requires EntriesOk(heap, leaves)
    ensures EntriesOk(heap, leaves - {k})
  {
    forall i, j | i in leaves - {k} && j in leaves - {k} ensures Exclusive(leaves - {k}, i, j) {
      assert Exclusive(leaves, i, j);
    }
  }

  lemma TreesTableAdded(leaves: map<Key, Pte>, tables: map<Node, nat>, n: Node, f: nat)
    requires TreesOk(leaves, tables) && (Parent(n) == n || Parent(n) in tables) && IndexOk(n)
    ensures TreesOk(leaves, tables[n := f])
  {
    forall k | k in leaves ensures HasPath(tables[n := f], k) { assert HasPath(tables, k); }
    var tables' := tables[n := f];
    forall m | m in tables' ensures NodeOk(tables', m) { assert m in tables ==> NodeOk(tables, m); }
  }

  lemma TreesTableRemoved(leaves: map<Key, Pte>, tables: map<Node, nat>, n: Node)
    requires TreesOk(leaves, tables) && Childless(leaves, tables, n)
    ensures TreesOk(leaves, tables - {n})
  {
    forall k | k in leaves ensures HasPath(tables - {n}, k) { assert HasPath(tables, k); }
    forall m | m in tables - {n} ensures NodeOk(tables - {n}, m) { assert NodeOk(tables, m); }
  }

  lemma TreesLeafSet(leaves: map<Key, Pte>, tables: map<Node, nat>, k: Key, e: Pte)
    requires TreesOk(leaves, tables) && HasPath(tables, k)
    ensures TreesOk(leaves[k := e], tables)
  {
  }

  lemma PageSet(heap: set<nat>, mem: map<nat, Page>, f: nat, p: Page)
    requires PagesOk(heap, mem) && f in heap && |p| == PAGE_SIZE
    ensures PagesOk(heap, mem[f := p])
  {
    forall g ensures Sized(mem[f := p], g) <==> g in heap { assert Sized(mem, g) <==> g in heap; }
  }

  // ----- the whole invariant under one change -----

  /** A fresh table page. */
  lemma TableAddedOk(heap: set<nat>, mem: map<nat, Page>, count: map<nat, nat>, free: seq<nat>,
    leaves: map<Key, Pte>, tables: map<Node, nat>, n: Node, p: Page)
    requires FieldsOk(heap, mem, count, free, leaves, tables)
    requires n !in tables && free != [] && |p| == PAGE_SIZE
    requires free[0] in heap && Refs(leaves, free[0]) == {} && TableRefs(tables, free[0]) == {}
    requires (Parent(n) == n || Parent(n) in tables) && IndexOk(n)
    ensures FieldsOk(heap, mem[free[0] := p], count[free[0] := NON_SHAREABLE], free[1..], leaves, tables[n := free[0]])
  {
    Popped(heap, count, free, NON_SHAREABLE);
    CountsTableAdded(heap, count, leaves, tables, n, free[0]);
    TreesTableAdded(leaves, tables, n, free[0]);
    PageSet(heap, mem, free[0], p);
  }

  /** A fresh page under a new entry. */
  lemma LeafAddedOk(heap: set<nat>, mem: map<nat, Page>, count: map<nat, nat>, free: seq<nat>,
    leaves: map<Key, Pte>, tables: map<Node, nat>, k: Key, flags: set<Flag>, p: Page)
    requires FieldsOk(heap, mem, count, free, leaves, tables)
    requires k !in leaves && free != [] && HasPath(tables, k) && |p| == PAGE_SIZE
    requires free[0] in heap && free[0] in count && count[free[0]] == 0 && TableRefs(tables, free[0]) == {}
    requires forall l :: l in leaves ==> leaves[l].frame != free[0]
    requires EntryOk(heap, Pte(free[0], flags))
    ensures FieldsOk(heap, mem[free[0] := p], count[free[0] := 1], free[1..], leaves[k := Pte(free[0], flags)], tables)
  {
    var e := Pte(free[0], flags);
    Popped(heap, count, free, 1);
    CountsLeafAdded(heap, count, leaves, tables, k, e);
    EntriesSet(heap, leaves, k, e);
    TreesLeafSet(leaves, tables, k, e);
    PageSet(heap, mem, free[0], p);
  }

  /** An entry for a frame outside the page manager. */
  lemma FixedAddedOk(heap: set<nat>, mem: map<nat, Page>, count: map<nat, nat>, free: seq<nat>,
    leaves: map<Key, Pte>, tables: map<Node, nat>, k: Key, e: Pte)
    requires FieldsOk(heap, mem, count, free, leaves, tables)
    requires k !in leaves && e.frame !in heap && HasPath(tables, k) && EntryOk(heap, e)
    ensures FieldsOk(heap, mem, count, free, leaves[k := e], tables)
  {
    forall g | g in heap ensures Refs(leaves[k := e], g) == Refs(leaves, g) { RefsAfterAdd(leaves, k, e, g); }
    CountsUnaffected(heap, count, leaves, tables, leaves[k := e]);
    EntriesSet(heap, leaves, k, e);
    TreesLeafSet(leaves, tables, k, e);
  }

  /** A second entry for a frame that no entry may write. */
  lemma LeafSharedOk(heap: set<nat>, mem: map<nat, Page>, count: map<nat, nat>, free: seq<nat>,
    leaves: map<Key, Pte>, tables: map<Node, nat>, k: Key, e: Pte)
    requires FieldsOk(heap, mem, count, free, leaves, tables)
    requires k !in leaves && HasPath(tables, k) && EntryOk(heap, e) && e.frame in heap
    requires e.frame in count && 0 < count[e.frame] && count[e.frame] + 1 < NON_SHAREABLE
    requires TableRefs(tables, e.frame) == {}
    requires W !in e.flags
    requires forall l :: l in leaves && leaves[l].frame == e.frame ==> W !in leaves[l].flags && l.vpn == k.vpn
    ensures FieldsOk(heap, mem, count[e.frame := count[e.frame] + 1], free, leaves[k := e], tables)
  {
    Recounted(heap, count, free, e.frame, count[e.frame] + 1);
    CountsLeafAdded(heap, count, leaves, tables, k, e);
    EntriesSet(heap, leaves, k, e);
    TreesLeafSet(leaves, tables, k, e);
  }

  /** The flags of one entry change; write permission is gained only by the sole owner. */
  lemma FlagsChangedOk(heap: set<nat>, mem: map<nat, Page>, count: map<nat, nat>, free: seq<nat>,
    leaves: map<Key, Pte>, tables: map<Node, nat>, k: Key, flags: set<Flag>)
    requires FieldsOk(heap, mem, count, free, leaves, tables)
    requires k in leaves && EntryOk(heap, Pte(leaves[k].frame, flags))
    requires (W in flags ==> Refs(leaves, leaves[k].frame) == {k}) && (U in flags ==> U in leaves[k].flags)
    ensures FieldsOk(heap, mem, count, free, leaves[k := Pte(leaves[k].frame, flags)], tables)
  {
    var e := Pte(leaves[k].frame, flags);
    forall g | g in heap ensures Refs(leaves[k := e], g) == Refs(leaves, g) { RefsAfterFlags(leaves, k, flags, g); }
    CountsUnaffected(heap, count, leaves, tables, leaves[k := e]);
    forall l | l in leaves && l != k && leaves[l].frame == e.frame
      ensures W !in leaves[l].flags && W !in flags && (U in leaves[l].flags || U in flags ==> l.vpn == k.vpn)
    {
      assert Exclusive(leaves, l, k) && Exclusive(leaves, k, l);
      assert l in Refs(leaves, e.frame);
    }
    EntriesSet(heap, leaves, k, e);
    assert HasPath(tables, k);
    TreesLeafSet(leaves, tables, k, e);
  }

  lemma FixedRemovedOk(heap: set<nat>, mem: map<nat, Page>, count: map<nat, nat>, free: seq<nat>,
    leaves: map<Key, Pte>, tables: map<Node, nat>, k: Key)
    requires FieldsOk(heap, mem, count, free, leaves, tables)
    requires k in leaves && leaves[k].frame !in heap
    ensures FieldsOk(heap, mem, count, free, leaves - {k}, tables)
  {
    forall g | g in heap ensures Refs(leaves - {k}, g) == Refs(leaves, g) { RefsAfterRemove(leaves, k, g); }
    CountsUnaffected(heap, count, leaves, tables, leaves - {k});
    EntriesRemoved(heap, leaves, k);
  }

  /** The last entry of a frame goes and the frame is freed. */
  lemma LastRefRemovedOk(heap: set<nat>, mem: map<nat, Page>, count: map<nat, nat>, free: seq<nat>,
    leaves: map<Key, Pte>, tables: map<Node, nat>, k: Key, p: Page)
    requires FieldsOk(heap, mem, count, free, leaves, tables)
    requires k in leaves && leaves[k].frame in heap && leaves[k].frame !in free
    requires TableRefs(tables, leaves[k].frame) == {}
    requires leaves[k].frame in count && count[leaves[k].frame] == 1 && |p| == PAGE_SIZE
    ensures var f := leaves[k].frame; FieldsOk(heap, mem[f := p], count[f := 0], [f] + free, leaves - {k}, tables)
  {
    var f := leaves[k].frame;
    CountsLeafRemoved(heap, count, leaves, tables, k);
    EntriesRemoved(heap, leaves, k);
    Pushed(heap, count, free, f);
    PageSet(heap, mem, f, p);
  }

  /** One of several entries of a frame goes. */
  lemma RefRemovedOk(heap: set<nat>, mem: map<nat, Page>, count: map<nat, nat>, free: seq<nat>,
    leaves: map<Key, Pte>, tables: map<Node, nat>, k: Key)
    requires FieldsOk(heap, mem, count, free, leaves, tables)
    requires k in leaves && leaves[k].frame in heap && leaves[k].frame !in free
    requires TableRefs(tables, leaves[k].frame) == {}
    requires leaves[k].frame in count && count[leaves[k].frame] > 1
    ensures var f := leaves[k].frame; FieldsOk(heap, mem, count[f := count[f] - 1], free, leaves - {k}, tables)
  {
    var f := leaves[k].frame;
    CountsLeafRemoved(heap, count, leaves, tables, k);
    EntriesRemoved(heap, leaves, k);
    Recounted(heap, count, free, f, count[f] - 1);
  }

  /** A table page goes. */
  lemma TableRemovedOk(heap: set<nat>, mem: map<nat, Page>, count: map<nat, nat>, free: seq<nat>,
    leaves: map<Key, Pte>, tables: map<Node, nat>, n: Node, p: Page)
    requires FieldsOk(heap, mem, count, free, leaves, tables)
    requires n in tables && tables[n] in heap && tables[n] !in free && Childless(leaves, tables, n) && |p| == PAGE_SIZE
    ensures FieldsOk(heap, mem[tables[n] := p], count[tables[n] := 0], [tables[n]] + free, leaves, tables - {n})
  {
    CountsTableRemoved(heap, count, leaves, tables, n);
    Pushed(heap, count, free, tables[n]);
    TreesTableRemoved(leaves, tables, n);
    PageSet(heap, mem, tables[n], p);
  }

  // ----- what the other pages see -----

  ghost predicate Kept(s: State, t: State, k: Key) {
    (k in t.leaves <==> k in s.leaves) && (k in s.leaves ==> PageAt(t, k) == PageAt(s, k))
  }

  ghost predicate SameLeaf(leaves: map<Key, Pte>, leaves': map<Key, Pte>, k: Key) {
    (k in leaves' <==> k in leaves) && (k in leaves ==> leaves'[k] == leaves[k])
  }

  ghost predicate AllKept(s: State, t: State) {
    forall k {:trigger Kept(s, t, k)} :: Kept(s, t, k)
  }

  ghost predicate OthersKept(s: State, t: State, k: Key) {
    forall l {:trigger Kept(s, t, l)} :: l != k ==> Kept(s, t, l)
  }

  ghost predicate SameRoots(s: State, t: State) {
    t.rom == s.rom && t.heap == s.heap && forall a {:trigger Root(a)} :: Root(a) in t.tables <==> Root(a) in s.tables
  }

  lemma EnsureTableOk(s: State, n: Node)
    requires Inv(s) && (Parent(n) == n || Parent(n) in s.tables) && IndexOk(n)
    ensures var r := EnsureTable(s, n);
      && (if n in s.tables || s.free != [] then r.out.Done? && r.s.tables.Keys == s.tables.Keys + {n}
          else r == Result(s, Failed))
      && |r.s.free| == |s.free| - (if n in s.tables || s.free == [] then 0 else 1)
      && r.s.leaves == s.leaves && r.s.rom == s.rom && r.s.heap == s.heap
      && Inv(r.s) && AllKept(s, r.s)
  {
    hide FieldsOk;
    assert n in s.tables ==> s.tables.Keys == s.tables.Keys + {n};
    if n !in s.tables && s.free != [] {
      FreeUnnamed(s, s.free[0]);
      TableAddedOk(s.heap, s.mem, s.count, s.free, s.leaves, s.tables, n, Fill(0));
    }
  }

  /** A fresh page under a new entry. */
  lemma LeafAdded(s: State, k: Key, flags: set<Flag>, p: Page)
    requires Inv(s) && k !in s.leaves && s.free != [] && HasPath(s.tables, k)
    requires EntryOk(s.heap, Pte(s.free[0], flags)) && |p| == PAGE_SIZE
    ensures var t := Take(s, 1, p).s.(leaves := s.leaves[k := Pte(s.free[0], flags)]);
      Take(s, 1, p).out.Done? && Inv(t) && OthersKept(s, t, k) && PageAt(t, k) == EagerPage(p, Logical(flags))
  {
    hide FieldsOk;
    FreeUnnamed(s, s.free[0]);
    LeafAddedOk(s.heap, s.mem, s.count, s.free, s.leaves, s.tables, k, flags, p);
  }

  /** An entry goes and its reference with it. */
  lemma LeafRemoved(s: State, k: Key)
    requires Inv(s) && k in s.leaves
    ensures var r := FreeLeaf(s, k);
      r.out.Done? && Inv(r.s) && OthersKept(s, r.s, k)
  {
    hide FieldsOk;
    var f := s.leaves[k].frame;
    if f !in s.heap {
      FixedRemovedOk(s.heap, s.mem, s.count, s.free, s.leaves, s.tables, k);
    } else {
      LeafFrame(s, k);
      if s.count[f] == 1 {
        LastRefRemovedOk(s.heap, s.mem, s.count, s.free, s.leaves, s.tables, k, Fill(1));
        SoleMember(Refs(s.leaves, f), k);
        assert forall l :: l in s.leaves && s.leaves[l].frame == f ==> l in Refs(s.leaves, f);
      } else {
        RefRemovedOk(s.heap, s.mem, s.count, s.free, s.leaves, s.tables, k);
      }
    }
  }

  lemma SoleMember(keys: set<Key>, k: Key)
    requires |keys| == 1 && k in keys
    ensures keys == {k}
  {
    assert |keys - {k}| == 0;
  }

  // ----- one operation -----

  /** `op` keeps the invariant, trips no assertion and does what the eager machine does. */
  ghost predicate Refines(s: State, e: Eager, op: Op) {
    var r := Step(s, op);
    var q := EagerStep(e, op, r.out.Done?);
    !r.out.Panicked? && Inv(r.s) && Simulates(r.s, q.e) && r.out == q.out
  }

  /** Page `k` follows the eager machine, the others stay. */
  lemma SimulatesAfter(s: State, e: Eager, t: State, e': Eager, k: Key)
    requires Simulates(s, e) && OthersKept(s, t, k) && Agrees(t, e', k)
    requires forall l :: l != k ==> (l in e'.pages <==> l in e.pages) && (l in e.pages ==> e'.pages[l] == e.pages[l])
    requires e'.spaces == e.spaces && e'.rom == e.rom && SameRoots(s, t)
    ensures Simulates(t, e')
  {
    forall l ensures Agrees(t, e', l) {
      if l != k { assert Agrees(s, e, l) && Kept(s, t, l); }
    }
    forall a ensures SameSpace(t, e', a) { assert SameSpace(s, e, a); }
  }

  lemma EnsurePathOk(s: State, k: Key)
    requires Inv(s) && Root(k.asid) in s.tables && VpnOk(k.vpn)
    ensures var r := EnsurePath(s, k);
      && (if Missing(s, k) <= |s.free| then r.out.Done? && HasPath(r.s.tables, k) else r.out.Failed?)
      && (r.out.Done? ==> |r.s.free| == |s.free| - Missing(s, k) && r.s.tables.Keys == s.tables.Keys + {L1(k), L0(k)})
      && Inv(r.s) && AllKept(s, r.s) && r.s.leaves == s.leaves && SameRoots(s, r.s)
  {
    hide FieldsOk, EnsureTable;
    if L0(k) in s.tables { PathClosed(s, k); }
    EnsureTableOk(s, L1(k));
    var r := EnsureTable(s, L1(k));
    if r.out.Done? {
      EnsureTableOk(r.s, L0(k));
      forall l ensures Kept(s, EnsurePath(s, k).s, l) {
        assert Kept(s, r.s, l) && Kept(r.s, EnsurePath(s, k).s, l);
      }
    }
  }

  lemma PathClosed(s: State, k: Key)
    requires Inv(s) && L0(k) in s.tables
    ensures L1(k) in s.tables
  {
    assert NodeOk(s.tables, L0(k));
  }

  lemma NewSpaceStep(s: State, e: Eager, a: nat)
    requires Inv(s) && Simulates(s, e) && Legal(s, NewSpace(a))
    ensures Refines(s, e, NewSpace(a))
  {
    hide FieldsOk;
    EnsureTableOk(s, Root(a));
    var r := Step(s, NewSpace(a));
    var e' := EagerStep(e, NewSpace(a), r.out.Done?).e;
    forall k ensures Agrees(r.s, e', k) { assert Agrees(s, e, k) && Kept(s, r.s, k); }
    forall b ensures SameSpace(r.s, e', b) { assert SameSpace(s, e, b); }
  }

  lemma KeptAfter(s: State, r: State, t: State, k: Key)
    requires AllKept(s, r) && OthersKept(r, t, k)
    ensures OthersKept(s, t, k)
  {
    forall l | l != k ensures Kept(s, t, l) { assert Kept(s, r, l) && Kept(r, t, l); }
  }

  lemma MapAllocatedOk(s: State, k: Key, perm: set<Flag>, zeroed: bool)
    requires Inv(s) && Legal(s, MapNew(k, perm, zeroed, true))
    ensures var r := MapAllocated(s, k, perm, zeroed, true);
      && !r.out.Panicked? && Inv(r.s) && OthersKept(s, r.s, k) && SameRoots(s, r.s)
      && (k in r.s.leaves <==> r.out.Done?)
      && (r.out.Done? ==> PageAt(r.s, k) == EagerPage(Fill(if zeroed then 0 else 5), Logical(perm + {V})))
  {
    hide FieldsOk, EnsurePath;
    EnsurePathOk(s, k);
    var r := EnsurePath(s, k);
    if r.out.Done? && r.s.free != [] {
      HeadInHeap(r.s);
      LeafAdded(r.s, k, perm + {V}, Fill(if zeroed then 0 else 5));
      KeptAfter(s, r.s, MapAllocated(s, k, perm, zeroed, true).s, k);
    }
  }

  /** Mapping over an existing page answers as the eager machine exactly when the flags give the same answer. */
  lemma RemapAgreesIff(s: State, e: Eager, k: Key, perm: set<Flag>, zeroed: bool)
    requires Inv(s) && Simulates(s, e) && k in s.leaves
    ensures Refines(s, e, MapNew(k, perm, zeroed, false)) <==> SameAnswer(s.leaves[k].flags, perm)
  {
    assert HasPath(s.tables, k);
    hide FieldsOk, Simulates;
    assert Agrees(s, e, k) by { AgreesAt(s, e, k); }
    var flags := s.leaves[k].flags;
    assert Step(s, MapNew(k, perm, zeroed, false)).s == s;
    LogicalUser(flags);
  }

  lemma AgreesAt(s: State, e: Eager, k: Key)
    requires Simulates(s, e)
    ensures Agrees(s, e, k)
  {
  }

  lemma LogicalUser(flags: set<Flag>)
    ensures Logical(flags) * {U, R, W, X} == (if C in flags then flags + {W} else flags) * {U, R, W, X}
    ensures C in flags && W !in flags ==> (flags + {W}) * {U, R, W, X} != flags * {U, R, W, X}
  {
    assert W in (flags + {W}) * {U, R, W, X};
  }

  lemma MapNewStep(s: State, e: Eager, k: Key, perm: set<Flag>, zeroed: bool, allocateNew: bool)
    requires Inv(s) && Simulates(s, e) && Legal(s, MapNew(k, perm, zeroed, allocateNew))
    ensures Refines(s, e, MapNew(k, perm, zeroed, allocateNew))
  {
    var op := MapNew(k, perm, zeroed, allocateNew);
    var r := Step(s, op);
    assert Agrees(s, e, k);
    if k in s.leaves {
      RemapAgreesIff(s, e, k, perm, zeroed);
    } else {
      hide FieldsOk;
      MapAllocatedOk(s, k, perm, zeroed);
      assert r == MapAllocated(s, k, perm, zeroed, true);
      SimulatesAfter(s, e, r.s, EagerStep(e, op, r.out.Done?).e, k);
    }
  }

  lemma MapFixedStep(s: State, e: Eager, k: Key, f: nat, perm: set<Flag>)
    requires Inv(s) && Simulates(s, e) && Legal(s, MapFixed(k, f, perm))
    ensures Refines(s, e, MapFixed(k, f, perm))
  {
    hide FieldsOk, EnsurePath;
    var op := MapFixed(k, f, perm);
    EnsurePathOk(s, k);
    var r := EnsurePath(s, k);
    var t := Step(s, op);
    if r.out.Done? {
      FixedAddedOk(s.heap, r.s.mem, r.s.count, r.s.free, s.leaves, r.s.tables, k, Pte(f, perm + {V}));
      KeptAfter(s, r.s, t.s, k);
    }
    assert Agrees(s, e, k);
    SimulatesAfter(s, e, t.s, EagerStep(e, op, t.out.Done?).e, k);
  }

  /** The frames an operation that makes a space or a mapping needs: its table pages, and the page itself. */
  function Needed(s: State, op: Op): nat {
    match op
    case NewSpace(_) => 1
    case MapNew(k, _, _, _) => if k in s.leaves then 0 else Missing(s, k) + 1
    case MapFixed(k, _, _) => Missing(s, k)
    case _ => 0
  }

  /** Such an operation fails for want of memory exactly when fewer frames are free than it needs, and takes exactly
      those otherwise. */
  lemma EnoughIff(s: State, op: Op)
    requires Inv(s) && Legal(s, op) && (op.NewSpace? || op.MapFixed? || (op.MapNew? && op.key !in s.leaves))
    ensures Step(s, op).out == if Needed(s, op) <= |s.free| then Done else Failed
    ensures Step(s, op).out.Done? ==> |Step(s, op).s.free| == |s.free| - Needed(s, op)
  {
    hide FieldsOk, EnsurePath, EnsureTable;
    if op.NewSpace? {
      EnsureTableOk(s, Root(op.asid));
    } else {
      EnsurePathOk(s, op.key);
      var r := EnsurePath(s, op.key);
      if op.MapNew? && r.out.Done? && r.s.free != [] { FreeUnnamed(r.s, r.s.free[0]); }
    }
  }

  lemma UnmapStep(s: State, e: Eager, k: Key)
    requires Inv(s) && Simulates(s, e)
    ensures Refines(s, e, Unmap(k))
  {
    hide FieldsOk;
    if k in s.leaves { LeafRemoved(s, k); }
    assert Agrees(s, e, k);
    var t := Step(s, Unmap(k)).s;
    SimulatesAfter(s, e, t, EagerStep(e, Unmap(k), true).e, k);
  }

  lemma FreeTableStep(s: State, e: Eager, n: Node)
    requires Inv(s) && Simulates(s, e) && Legal(s, FreeTable(n))
    ensures Refines(s, e, FreeTable(n))
  {
    hide FieldsOk;
    TableFrame(s, n);
    TableRemovedOk(s.heap, s.mem, s.count, s.free, s.leaves, s.tables, n, Fill(1));
    var t := Step(s, FreeTable(n)).s;
    var e' := EagerStep(e, FreeTable(n), true).e;
    forall k ensures Agrees(t, e', k) {
      assert Agrees(s, e, k);
    }
    forall a ensures SameSpace(t, e', a) { assert SameSpace(s, e, a); }
  }

  // ----- breaking a shared page -----

  /** The sole owner of a copy-on-write page just gets its write permission back. */
  lemma BreakInPlace(s: State, k: Key)
    requires Inv(s) && k in s.leaves && C in s.leaves[k].flags && s.leaves[k].frame in s.count
    requires s.count[s.leaves[k].frame] == 1
    ensures var t := s.(leaves := s.leaves[k := Pte(s.leaves[k].frame, s.leaves[k].flags - {C} + {W})]);
      Inv(t) && AllKept(s, t)
  {
    CowEntry(s, k);
    hide FieldsOk;
    assert U in s.leaves[k].flags;
    LeafFrame(s, k);
    SoleMember(Refs(s.leaves, s.leaves[k].frame), k);
    FlagsChangedOk(s.heap, s.mem, s.count, s.free, s.leaves, s.tables, k, s.leaves[k].flags - {C} + {W});
  }

  lemma CowEntry(s: State, k: Key)
    requires Inv(s) && k in s.leaves && C in s.leaves[k].flags
    ensures EntryOk(s.heap, s.leaves[k]) && s.leaves[k].frame in s.heap && W !in s.leaves[k].flags
    ensures U in s.leaves[k].flags
    ensures HasPath(s.tables, k) && |Contents(s, s.leaves[k].frame)| == PAGE_SIZE
  {
    assert Sized(s.mem, s.leaves[k].frame);
  }

  /** A shared page is left to the others and a private copy takes its place. */
  lemma BreakByCopy(s: State, k: Key)
    requires Inv(s) && k in s.leaves && C in s.leaves[k].flags && s.leaves[k].frame in s.count
    requires s.count[s.leaves[k].frame] != 1 && s.free != []
    ensures var r := RequestUserWrite(s, k);
      && r.out.Done? && Inv(r.s) && AllKept(s, r.s) && SameRoots(s, r.s)
      && k in r.s.leaves && {U, W} <= r.s.leaves[k].flags && C !in r.s.leaves[k].flags && |r.s.free| == |s.free| - 1
  {
    hide FieldsOk;
    var f, g := s.leaves[k].frame, s.free[0];
    var writable := s.leaves[k].flags - {C} + {W};
    CowEntry(s, k);
    LeafFrame(s, k);
    HeadInHeap(s);
    FreeUnnamed(s, g);
    RefRemovedOk(s.heap, s.mem, s.count, s.free, s.leaves, s.tables, k);
    LeafAddedOk(s.heap, s.mem, s.count[f := s.count[f] - 1], s.free, s.leaves - {k}, s.tables, k, writable,
                Contents(s, f));
    assert (s.leaves - {k})[k := Pte(g, writable)] == s.leaves[k := Pte(g, writable)];
    assert s.count[f := s.count[f] - 1][g := 1] == s.count[g := 1][f := s.count[f] - 1];
  }

  lemma RequestUserWriteOk(s: State, k: Key)
    requires Inv(s) && CanBreak(s, k)
    ensures var r := RequestUserWrite(s, k);
      && !r.out.Panicked? && Inv(r.s) && AllKept(s, r.s) && SameRoots(s, r.s)
      && (r.out.Done? <==> k in s.leaves && {U, W} <= Logical(s.leaves[k].flags))
      && (r.out.Done? ==> k in r.s.leaves && {U, W} <= r.s.leaves[k].flags && C !in r.s.leaves[k].flags)
      && |r.s.free| == |s.free| - (if MustCopy(s, k) then 1 else 0)
      && (forall l {:trigger SameLeaf(s.leaves, r.s.leaves, l)} :: l != k ==> SameLeaf(s.leaves, r.s.leaves, l))
  {
    assert k in s.leaves ==> EntryOk(s.heap, s.leaves[k]);
    hide FieldsOk;
    if k in s.leaves && C in s.leaves[k].flags {
      CowEntry(s, k);
      LeafFrame(s, k);
      if s.count[s.leaves[k].frame] == 1 { BreakInPlace(s, k); } else { BreakByCopy(s, k); }
    }
  }

  lemma FaultStep(s: State, e: Eager, k: Key)
    requires Inv(s) && Simulates(s, e) && CanBreak(s, k)
    ensures Refines(s, e, Fault(k))
  {
    hide FieldsOk, RequestUserWrite;
    RequestUserWriteOk(s, k);
    var t := RequestUserWrite(s, k).s;
    assert Agrees(s, e, k) && Kept(s, t, k);
    SimulatesAfter(s, e, t, e, k);
  }

  lemma StoreStep(s: State, e: Eager, k: Key, need: set<Flag>, off: nat, val: byte)
    requires Inv(s) && Simulates(s, e) && CanBreak(s, k) && (W in need || U in need) && off < PAGE_SIZE
    requires !Leaks(s, k, need, off, val)
    ensures Refines(s, e, Store(k, need, off, val))
  {
    hide FieldsOk, RequestUserWrite;
    var op := Store(k, need, off, val);
    assert Agrees(s, e, k);
    if k in s.leaves {
      RequestUserWriteOk(s, k);
      var m := if C in s.leaves[k].flags then RequestUserWrite(s, k).s else s;
      assert Kept(s, m, k);
      if C in s.leaves[k].flags { CowEntry(s, k); }
      if need <= m.leaves[k].flags {
        ByteWritten(m, k, off, val);
        KeptAfter(s, m, Step(s, op).s, k);
      }
    }
    SimulatesAfter(s, e, Step(s, op).s, EagerStep(e, op, true).e, k);
  }

  /** A byte written is seen by the entry written through alone: the entry is writable, the frame is its own, or the
      byte was there already. */
  lemma ByteWritten(s: State, k: Key, off: nat, val: byte)
    requires Inv(s) && k in s.leaves && (W in s.leaves[k].flags || U in s.leaves[k].flags) && off < PAGE_SIZE
    requires C !in s.leaves[k].flags && !Leaks(s, k, {}, off, val)
    ensures var f := s.leaves[k].frame;
      f in s.mem && off < |s.mem[f]| && var t := s.(mem := s.mem[f := s.mem[f][off := val]]);
      && Inv(t) && OthersKept(s, t, k) && PageAt(s, k).bytes == s.mem[f]
      && PageAt(t, k) == PageAt(s, k).(bytes := s.mem[f][off := val])
  {
    var f := s.leaves[k].frame;
    assert EntryOk(s.heap, s.leaves[k]) && Sized(s.mem, f);
    PageSet(s.heap, s.mem, f, s.mem[f][off := val]);
    LeafFrame(s, k);
    if W in s.leaves[k].flags {
      forall l | l in s.leaves && l != k ensures s.leaves[l].frame != f { assert Exclusive(s.leaves, k, l); }
    } else if s.count[f] == 1 {
      SoleMember(Refs(s.leaves, f), k);
      assert forall l :: l in s.leaves && s.leaves[l].frame == f ==> l in Refs(s.leaves, f);
    } else {
      assert s.mem[f := s.mem[f][off := val]] == s.mem by { assert s.mem[f][off := val] == s.mem[f]; }
    }
  }

  /** A store asked for with `U` alone follows the eager machine exactly when it does not change a frame that a
      read-only entry shares with others. */
  lemma StoreRefinesIff(s: State, e: Eager, k: Key, need: set<Flag>, off: nat, val: byte)
    requires Inv(s) && Simulates(s, e) && CanBreak(s, k) && (W in need || U in need) && off < PAGE_SIZE
    ensures Refines(s, e, Store(k, need, off, val)) <==> !Leaks(s, k, need, off, val)
  {
    if Leaks(s, k, need, off, val) {
      var f := s.leaves[k].frame;
      assert EntryOk(s.heap, s.leaves[k]);
      hide FieldsOk;
      LeafFrame(s, k);
      var l := AnotherMember(Refs(s.leaves, f), k);
      assert Agrees(s, e, l);
      assert !Agrees(Step(s, Store(k, need, off, val)).s, EagerStep(e, Store(k, need, off, val), true).e, l);
    } else {
      StoreStep(s, e, k, need, off, val);
    }
  }

  lemma AnotherMember(keys: set<Key>, k: Key) returns (l: Key)
    requires k in keys && |keys| != 1
    ensures l in keys && l != k
  {
    assert |keys - {k}| == |keys| - 1;
    l :| l in keys - {k};
  }

  // ----- sharing a page -----

  /** Allocating a table page does not look at the count of a frame in use. */
  lemma EnsureTableCommutes(s: State, n: Node, f: nat, c: nat)
    requires f !in s.free && f in s.count
    ensures var r := EnsureTable(s, n);
      EnsureTable(s.(count := s.count[f := c]), n) == Result(r.s.(count := r.s.count[f := c]), r.out)
  {
    if n !in s.tables && s.free != [] {
      var g := s.free[0];
      assert g != f && s.count[f := c][g := NON_SHAREABLE] == s.count[g := NON_SHAREABLE][f := c];
    }
  }

  lemma EnsurePathCommutes(s: State, k: Key, f: nat, c: nat)
    requires f !in s.free && f in s.count
    ensures var r := EnsurePath(s, k);
      EnsurePath(s.(count := s.count[f := c]), k) == Result(r.s.(count := r.s.count[f := c]), r.out)
      && f in r.s.count && r.s.count[f] == s.count[f]
  {
    if Root(k.asid) in s.tables {
      EnsureTableCommutes(s, L1(k), f, c);
      var r := EnsureTable(s, L1(k));
      assert f !in r.s.free;
      if r.out.Done? { EnsureTableCommutes(r.s, L0(k), f, c); }
    }
  }

  /** The parent gives up write permission; what it sees stays. */
  lemma ParentProtected(s: State, k: Key)
    requires Inv(s) && k in s.leaves && U in s.leaves[k].flags
    ensures Inv(Protected(s, k)) && AllKept(s, Protected(s, k))
  {
    assert EntryOk(s.heap, s.leaves[k]);
    hide FieldsOk;
    FlagsChangedOk(s.heap, s.mem, s.count, s.free, s.leaves, s.tables, k, MakeCopyOnWrite(s.leaves[k].flags));
  }

  lemma LeafShared(s: State, src: Key, dst: Key)
    requires Inv(s) && src in s.leaves && dst !in s.leaves && HasPath(s.tables, dst)
    requires U in s.leaves[src].flags && W !in s.leaves[src].flags && src.vpn == dst.vpn
    ensures s.leaves[src].frame in s.count && var t := SharedLeaf(s, src, dst);
      Inv(t) && OthersKept(s, t, dst) && PageAt(t, dst) == PageAt(s, src)
  {
    hide FieldsOk;
    var e := s.leaves[src];
    SharedFacts(s, src);
    LeafFrame(s, src);
    RefsBounded(s, Refs(s.leaves, e.frame) + {dst});
    assert dst !in Refs(s.leaves, e.frame);
    LeafSharedOk(s.heap, s.mem, s.count, s.free, s.leaves, s.tables, dst, e);
  }

  lemma SharedFacts(s: State, k: Key)
    requires Inv(s) && k in s.leaves && U in s.leaves[k].flags && W !in s.leaves[k].flags
    ensures EntryOk(s.heap, s.leaves[k])
    ensures forall l ::
      l in s.leaves && s.leaves[l].frame == s.leaves[k].frame ==> W !in s.leaves[l].flags && l.vpn == k.vpn
    ensures forall l :: l in Refs(s.leaves, s.leaves[k].frame) ==> HasPath(s.tables, l)
  {
    forall l | l in s.leaves && s.leaves[l].frame == s.leaves[k].frame
      ensures W !in s.leaves[l].flags && l.vpn == k.vpn
    {
      assert Exclusive(s.leaves, l, k) && Exclusive(s.leaves, k, l);
    }
  }

  function Protected(s: State, k: Key): State
    requires k in s.leaves
  {
    s.(leaves := s.leaves[k := Pte(s.leaves[k].frame, MakeCopyOnWrite(s.leaves[k].flags))])
  }

  function SharedLeaf(s: State, k: Key, l: Key): State
    requires k in s.leaves && s.leaves[k].frame in s.count
  {
    var f := s.leaves[k].frame;
    s.(leaves := s.leaves[l := s.leaves[k]], count := s.count[f := s.count[f] + 1])
  }

  /** Counting the new entry before or after its path is built makes no difference. */
  lemma CloneLeafShape(s: State, k: Key, l: Key)
    requires k in s.leaves && l !in s.leaves && U in s.leaves[k].flags && V in s.leaves[k].flags
    requires s.leaves[k].frame in s.count && s.count[s.leaves[k].frame] != NON_SHAREABLE && s.leaves[k].frame !in s.free
    requires var r := EnsurePath(Protected(s, k), l); r.out.Done? && r.s.leaves == Protected(s, k).leaves
    ensures s.leaves[k].frame in EnsurePath(Protected(s, k), l).s.count
    ensures CloneLeaf(s, k, l) == Result(SharedLeaf(EnsurePath(Protected(s, k), l).s, k, l), Done)
  {
    var f, cow := s.leaves[k].frame, MakeCopyOnWrite(s.leaves[k].flags);
    EnsurePathCommutes(Protected(s, k), l, f, s.count[f] + 1);
    hide EnsurePath;
    assert cow + {V} == cow;
  }

  lemma CloneLeafOk(s: State, k: Key, l: Key)
    requires Inv(s) && k in s.leaves && l !in s.leaves && U in s.leaves[k].flags && k.vpn == l.vpn
    requires Root(l.asid) in s.tables && VpnOk(l.vpn) && Missing(s, l) <= |s.free|
    ensures var r := CloneLeaf(s, k, l);
      && r.out.Done? && Inv(r.s) && OthersKept(s, r.s, l) && SameRoots(s, r.s)
      && l in r.s.leaves && PageAt(r.s, l) == PageAt(s, k) && |r.s.free| == |s.free| - Missing(s, l)
      && r.s.tables.Keys == s.tables.Keys + {L1(l), L0(l)}
  {
    assert EntryOk(s.heap, s.leaves[k]);
    hide FieldsOk, EnsurePath, CloneLeaf;
    LeafFrame(s, k);
    ParentProtected(s, k);
    var p := Protected(s, k);
    EnsurePathOk(p, l);
    CloneLeafShape(s, k, l);
    var r := EnsurePath(p, l).s;
    LeafShared(r, k, l);
    var t := CloneLeaf(s, k, l).s;
    assert Kept(s, p, k) && Kept(p, r, k);
    forall i | i != l ensures Kept(s, t, i) { assert Kept(s, p, i) && Kept(p, r, i) && Kept(r, t, i); }
  }

  lemma CloneStep(s: State, e: Eager, src: nat, dst: nat, v: Vpn)
    requires Inv(s) && Simulates(s, e) && Legal(s, Clone(src, dst, v)) && Clean(s, Clone(src, dst, v))
    ensures Refines(s, e, Clone(src, dst, v))
  {
    var op, k, l := Clone(src, dst, v), Key(src, v), Key(dst, v);
    assert k in s.leaves ==> HasPath(s.tables, k);
    hide FieldsOk, CloneLeaf;
    assert Agrees(s, e, k) && Agrees(s, e, l);
    if k in s.leaves && U in s.leaves[k].flags {
      CloneLeafOk(s, k, l);
      SimulatesAfter(s, e, Step(s, op).s, EagerStep(e, op, true).e, l);
    } else {
      CloneSkipped(s, k, l);
    }
  }

  lemma CloneSkipped(s: State, k: Key, l: Key)
    requires k !in s.leaves || U !in s.leaves[k].flags
    ensures CloneLeaf(s, k, l) == Result(s, if k in s.leaves then Failed else Done)
  {
  }

  // ----- every history -----

  lemma StepRefines(s: State, e: Eager, op: Op)
    requires Inv(s) && Simulates(s, e) && Legal(s, op) && Clean(s, op)
    ensures Refines(s, e, op)
  {
    hide FieldsOk, Simulates, Refines;
    match op
    case NewSpace(a) => NewSpaceStep(s, e, a);
    case MapNew(k, perm, zeroed, allocateNew) => MapNewStep(s, e, k, perm, zeroed, allocateNew);
    case MapFixed(k, f, perm) => MapFixedStep(s, e, k, f, perm);
    case Clone(src, dst, v) => CloneStep(s, e, src, dst, v);
    case Fault(k) => FaultStep(s, e, k);
    case Store(k, need, off, val) => StoreStep(s, e, k, need, off, val);
    case Unmap(k) => UnmapStep(s, e, k);
    case FreeTable(n) => FreeTableStep(s, e, n);
  }

  ghost predicate GoodRun(s: State, ops: seq<Op>)
    decreases |ops|
  {
    ops == [] || (Legal(s, ops[0]) && Clean(s, ops[0]) && GoodRun(Step(s, ops[0]).s, ops[1..]))
  }

  function Outcomes(s: State, ops: seq<Op>): (outs: seq<Outcome>)
    ensures |outs| == |ops|
    decreases |ops|
  {
    if ops == [] then [] else [Step(s, ops[0]).out] + Outcomes(Step(s, ops[0]).s, ops[1..])
  }

  /** The eager machine runs the same history and is told only which steps had memory. */
  function EagerRun(e: Eager, ops: seq<Op>, enough: seq<bool>): Eager
    requires |enough| == |ops|
    decreases |ops|
  {
    if ops == [] then e else EagerRun(EagerStep(e, ops[0], enough[0]).e, ops[1..], enough[1..])
  }

  function EagerOutcomes(e: Eager, ops: seq<Op>, enough: seq<bool>): seq<Outcome>
    requires |enough| == |ops|
    decreases |ops|
  {
    if ops == [] then []
    else [EagerStep(e, ops[0], enough[0]).out] + EagerOutcomes(EagerStep(e, ops[0], enough[0]).e, ops[1..], enough[1..])
  }

  function Enough(outs: seq<Outcome>): seq<bool> {
    seq(|outs|, i requires 0 <= i < |outs| => outs[i].Done?)
  }

  /** Over every history of clones, faults, stores, mappings and unmappings in any number of spaces:
      every space sees exactly the bytes and permissions it would see had each clone copied its page,
      every operation reports what it would report then, no assertion fires, and all counts agree. */
  lemma {:induction false} CopyOnWriteRefinesEagerCopy(s: State, e: Eager, ops: seq<Op>)
    requires Inv(s) && Simulates(s, e) && GoodRun(s, ops)
    ensures Inv(Run(s, ops)) && Simulates(Run(s, ops), EagerRun(e, ops, Enough(Outcomes(s, ops))))
    ensures Outcomes(s, ops) == EagerOutcomes(e, ops, Enough(Outcomes(s, ops)))
    ensures Panicked !in Outcomes(s, ops)
    decreases |ops|
  {
    hide FieldsOk, Simulates, Step, EagerStep;
    if ops != [] {
      StepRefines(s, e, ops[0]);
      var r := Step(s, ops[0]);
      var outs := Outcomes(s, ops);
      assert Enough(outs)[1..] == Enough(outs[1..]);
      CopyOnWriteRefinesEagerCopy(r.s, EagerStep(e, ops[0], r.out.Done?).e, ops[1..]);
    }
  }

  // ----- what the operations and their outcomes tell -----

  /** What space `k.asid` finds at offset `off` of page `k.vpn`: a byte, and the rights it has there. */
  function Found(s: State, k: Key, off: nat): Option<(byte, set<Flag>)> {
    if k in s.leaves then
      var page := PageAt(s, k);
      Some((if off < |page.bytes| then page.bytes[off] else 0, page.flags))
    else None
  }

  /** The same after `op` ended with `out`. It was `now` before, and `from` at the page a clone copies. */
  function FoundAfter(op: Op, out: Outcome, k: Key, off: nat, now: Option<(byte, set<Flag>)>,
                      from: Option<(byte, set<Flag>)>, rom: map<nat, Page>): Option<(byte, set<Flag>)> {
    match op
    case Store(l, _, o, val) => if l == k && o == off && out.Done? && now.Some? then Some((val, now.value.1)) else now
    case Unmap(l) => if l == k then None else now
    case MapNew(l, perm, zeroed, _) =>
      if l == k && now.None? && out.Done? then Some((if zeroed then 0 else 5, perm + {V})) else now
    case MapFixed(l, f, perm) =>
      if l == k && out.Done? then Some((if f in rom && off < |rom[f]| then rom[f][off] else 0, perm + {V})) else now
    case Clone(src, dst, v) => if k == Key(dst, v) && out.Done? && from.Some? then from else now
    case _ => now
  }

  /** The history read backwards: the last store to that place, the page it was cloned from, or how it was mapped. */
  ghost function Told(s: State, ops: seq<Op>, k: Key, off: nat): Option<(byte, set<Flag>)>
    decreases |ops|
  {
    if ops == [] then Found(s, k, off)
    else
      var n := |ops| - 1;
      var from := if ops[n].Clone? then Told(s, ops[..n], Key(ops[n].src, ops[n].vpn), off) else None;
      FoundAfter(ops[n], Outcomes(s, ops)[n], k, off, Told(s, ops[..n], k, off), from, s.rom)
  }

  /** The eager machine in the same state. */
  ghost function EagerOf(s: State): Eager {
    Eager(set n | n in s.tables && n.Root? :: n.asid, map k | k in s.leaves :: PageAt(s, k), s.rom)
  }

  lemma EagerOfSimulates(s: State)
    ensures Simulates(s, EagerOf(s))
  {
    forall a ensures SameSpace(s, EagerOf(s), a) {
      if Root(a) in s.tables { assert Root(a).asid in EagerOf(s).spaces; }
    }
  }

  function EagerFound(e: Eager, k: Key, off: nat): Option<(byte, set<Flag>)> {
    if k in e.pages then
      Some((if off < |e.pages[k].bytes| then e.pages[k].bytes[off] else 0, e.pages[k].flags))
    else None
  }

  lemma EagerStepFound(e: Eager, op: Op, enough: bool, k: Key, off: nat)
    requires off < PAGE_SIZE
    requires op.MapFixed? ==> op.key !in e.pages
    ensures var q := EagerStep(e, op, enough);
      var from := if op.Clone? then EagerFound(e, Key(op.src, op.vpn), off) else None;
      q.e.rom == e.rom && EagerFound(q.e, k, off) == FoundAfter(op, q.out, k, off, EagerFound(e, k, off), from, e.rom)
  {
  }

  lemma SameFound(s: State, e: Eager, k: Key, off: nat)
    requires Simulates(s, e)
    ensures Found(s, k, off) == EagerFound(e, k, off) && s.rom == e.rom
  {
    AgreesAt(s, e, k);
  }

  lemma StepFound(s: State, op: Op, k: Key, off: nat)
    requires Inv(s) && Legal(s, op) && Clean(s, op) && off < PAGE_SIZE
    ensures Inv(Step(s, op).s) && Step(s, op).s.rom == s.rom
    ensures var from := if op.Clone? then Found(s, Key(op.src, op.vpn), off) else None;
      Found(Step(s, op).s, k, off) == FoundAfter(op, Step(s, op).out, k, off, Found(s, k, off), from, s.rom)
  {
    hide Inv, Legal, Clean, Step, EagerStep, Simulates, Found, EagerFound, FoundAfter;
    var e := EagerOf(s);
    EagerOfSimulates(s);
    StepRefines(s, e, op);
    if op.MapFixed? { FixedIsNew(s, op); }
    var r := Step(s, op);
    EagerStepFound(e, op, r.out.Done?, k, off);
    SameFound(s, e, k, off);
    if op.Clone? { SameFound(s, e, Key(op.src, op.vpn), off); }
    SameFound(r.s, EagerStep(e, op, r.out.Done?).e, k, off);
  }

  lemma FixedIsNew(s: State, op: Op)
    requires Legal(s, op) && op.MapFixed?
    ensures op.key !in s.leaves
  {
  }

  /** In every history what a space finds anywhere, byte and rights, is what the operations and their outcomes say. */
  lemma {:induction false} HistoryTells(s: State, ops: seq<Op>, k: Key, off: nat)
    requires Inv(s) && GoodRun(s, ops) && off < PAGE_SIZE
    ensures Inv(Run(s, ops)) && Run(s, ops).rom == s.rom && Found(Run(s, ops), k, off) == Told(s, ops, k, off)
    decreases |ops|
  {
    hide Inv, GoodRun, Legal, Clean, Found, FoundAfter, Step, Outcomes, Run;
    if ops == [] {
      NothingRun(s);
    } else {
      var n := |ops| - 1;
      var was, op := ops[..n], ops[n];
      assert ops == was + [op];
      RunSnoc(s, was, op);
      HistoryTells(s, was, k, off);
      if op.Clone? { HistoryTells(s, was, Key(op.src, op.vpn), off); }
      StepFound(Run(s, was), op, k, off);
    }
  }

  lemma NothingRun(s: State)
    ensures Run(s, []) == s
  {
  }

  /** Nothing is mapped and every frame is free. */
  ghost predicate Booted(s: State) {
    && PagesOk(s.heap, s.mem) && FreeListOk(s.heap, s.count, s.free) && 512 * |s.heap| < NON_SHAREABLE
    && s.tables == map[] && s.leaves == map[] && forall f :: f in s.heap ==> s.count[f] == 0
  }

  /** The machine at boot: no tables, every frame free. */
  lemma BootOk(s: State)
    requires Booted(s)
    ensures Inv(s) && Simulates(s, Eager({}, map[], s.rom))
  {
    forall f | f in s.heap ensures Counted(s.count, s.leaves, s.tables, f) {
      assert Refs(s.leaves, f) == {} && TableRefs(s.tables, f) == {};
    }
    forall k ensures Agrees(s, Eager({}, map[], s.rom), k) { }
    forall a ensures SameSpace(s, Eager({}, map[], s.rom), a) { }
  }

  /** When the last table is gone every frame is back on the free list, exactly once. */
  lemma AllFramesReturn(s: State)
    requires Inv(s) && s.tables == map[]
    ensures s.leaves == map[] && |s.free| == |s.heap| && forall f :: f in s.heap <==> f in s.free
  {
    assert forall k :: k in s.leaves ==> HasPath(s.tables, k);
    forall f | f in s.heap ensures f in s.free {
      assert Counted(s.count, s.leaves, s.tables, f);
      assert Refs(s.leaves, f) == {} && TableRefs(s.tables, f) == {};
    }
    DistinctSize(s.free, s.heap);
  }

  lemma {:induction false} DistinctSize(q: seq<nat>, fs: set<nat>)
    requires NoDup(q) && forall f :: f in fs <==> f in q
    ensures |q| == |fs|
    decreases |q|
  {
    if q != [] {
      assert q == [q[0]] + q[1..];
      forall i, j | 0 <= i < j < |q| - 1 ensures Differ(q[1..], i, j) { assert Differ(q, i + 1, j + 1); }
      forall j | 0 <= j < |q| - 1 ensures q[1..][j] != q[0] { assert Differ(q, 0, j + 1); }
      DistinctSize(q[1..], fs - {q[0]});
    } else {
      assert fs == {};
    }
  }

  // ----- where the code loses a reference -----

  /** A store fault keeps the counts right exactly when a needed copy can be allocated:
      on failure the entry stays but its reference is dropped. */
  lemma FaultKeepsCountsIff(s: State, k: Key)
    requires Inv(s)
    ensures Inv(Step(s, Fault(k)).s) <==> CanBreak(s, k)
  {
    if CanBreak(s, k) {
      RequestUserWriteOk(s, k);
    } else {
      CowEntry(s, k);
      LeafFrame(s, k);
      var f := s.leaves[k].frame;
      assert !Counted(Step(s, Fault(k)).s.count, s.leaves, s.tables, f);
    }
  }

  /** A clone keeps the counts right exactly when the table pages of the child can be allocated:
      on failure the increment stays without an entry. */
  lemma CloneKeepsCountsIff(s: State, src: nat, dst: nat, v: Vpn)
    requires Inv(s) && Legal(s, Clone(src, dst, v))
    ensures Inv(Step(s, Clone(src, dst, v)).s) <==> Clean(s, Clone(src, dst, v))
  {
    var k, l := Key(src, v), Key(dst, v);
    if Clean(s, Clone(src, dst, v)) {
      if k in s.leaves && U in s.leaves[k].flags {
        assert HasPath(s.tables, k);
        CloneLeafOk(s, k, l);
      }
    } else {
      assert HasPath(s.tables, k);
      CloneLosesCount(s, k, l);
    }
  }

  lemma CloneLosesCount(s: State, k: Key, l: Key)
    requires Inv(s) && k in s.leaves && U in s.leaves[k].flags
    requires Root(l.asid) in s.tables && VpnOk(l.vpn) && Missing(s, l) > |s.free|
    ensures !Inv(CloneLeaf(s, k, l).s)
  {
    var f := s.leaves[k].frame;
    assert EntryOk(s.heap, s.leaves[k]);
    LeafFrame(s, k);
    ParentProtected(s, k);
    EnsurePathOk(Protected(s, k), l);
    EnsurePathCommutes(Protected(s, k), l, f, s.count[f] + 1);
    var r := EnsurePath(Protected(s, k), l).s;
    LeafFrame(r, k);
    hide EnsurePath;
    assert !Counted(r.count[f := s.count[f] + 1], r.leaves, r.tables, f);
  }

  /** Taking `W` away leaves a leaf entry exactly when it was readable or executable: a write-only
      leaf turns into what the walk takes for a link to a table. */
  lemma CopyOnWriteKeepsLeafIff(flags: set<Flag>)
    requires IsLeaf(flags)
    ensures IsLeaf(MakeCopyOnWrite(flags)) <==> R in flags || X in flags
    ensures !IsLeaf(MakeCopyOnWrite({V, U, W}))
  {
    var cow := MakeCopyOnWrite(flags);
    assert cow * {R, W, X} == flags * {R, X};
    assert R in flags ==> R in flags * {R, X};
    assert X in flags ==> X in flags * {R, X};
    assert MakeCopyOnWrite({V, U, W}) * {R, W, X} == {};
  }

  /** Mapping a fixed frame keeps the counts right exactly when the frame is none of the page manager's and the
      mapping is not writable. */
  lemma FixedKeepsCountsIff(s: State, k: Key, f: nat, perm: set<Flag>)
    requires Inv(s) && Root(k.asid) in s.tables && VpnOk(k.vpn) && k !in s.leaves && Missing(s, k) <= |s.free|
    requires perm <= {R, W, X} && (R in perm || X in perm)
    ensures Inv(Step(s, MapFixed(k, f, perm)).s) <==> f !in s.heap && W !in perm
  {
    hide FieldsOk, EnsurePath;
    EnsurePathOk(s, k);
    var r := EnsurePath(s, k).s;
    var e := Pte(f, perm + {V});
    if f in s.heap {
      UncountedEntry(r, k, e);
    } else if W in perm {
      WritableOutside(r, k, e);
    } else {
      FixedAddedOk(s.heap, r.mem, r.count, r.free, s.leaves, r.tables, k, e);
    }
  }

  lemma UncountedEntry(s: State, k: Key, e: Pte)
    requires Inv(s) && k !in s.leaves && e.frame in s.heap
    ensures !Inv(s.(leaves := s.leaves[k := e]))
  {
    CountedAt(s, e.frame);
    RefsAfterAdd(s.leaves, k, e, e.frame);
    assert k !in Refs(s.leaves, e.frame);
    assert !Counted(s.count, s.leaves[k := e], s.tables, e.frame);
  }

  lemma WritableOutside(s: State, k: Key, e: Pte)
    requires e.frame !in s.heap && W in e.flags
    ensures !Inv(s.(leaves := s.leaves[k := e]))
  {
    var leaves' := s.leaves[k := e];
    assert k in leaves' && !EntryOk(s.heap, leaves'[k]);
  }

  // ----- and inputs on which it does -----

  /** One page of space 0, mapped and shared with space 1: the history a fork leaves. */
  function Page0(): Key {
    Key(0, Vpn(0, 0, 0))
  }

  function ShareOnePage(perm: set<Flag>): seq<Op> {
    [NewSpace(0), MapNew(Page0(), perm, true, true), NewSpace(1), Clone(0, 1, Vpn(0, 0, 0))]
  }

  predicate UserRights(perm: set<Flag>) {
    {U, R} <= perm <= {U, R, W, X}
  }

  lemma SpaceMade(s: State, a: nat)
    requires Inv(s) && Root(a) !in s.tables && s.free != []
    ensures var op := NewSpace(a); var t := Step(s, op).s;
      && Legal(s, op) && Clean(s, op) && Inv(t) && |t.free| == |s.free| - 1 && t.leaves == s.leaves
      && t.tables.Keys == s.tables.Keys + {Root(a)}
  {
    hide FieldsOk, EnsureTable;
    EnsureTableOk(s, Root(a));
  }

  lemma PageMade(s: State, k: Key, perm: set<Flag>)
    requires Inv(s) && k !in s.leaves && Root(k.asid) in s.tables && VpnOk(k.vpn) && Missing(s, k) < |s.free|
    requires perm <= {U, R, W, X} && R in perm
    ensures var op := MapNew(k, perm, true, true); var t := Step(s, op).s;
      && Legal(s, op) && Clean(s, op) && Inv(t) && |t.free| == |s.free| - Missing(s, k) - 1
      && t.tables.Keys == s.tables.Keys + {L1(k), L0(k)} && t.leaves.Keys == s.leaves.Keys + {k}
      && t.leaves[k].flags == perm + {V}
  {
    hide FieldsOk, EnsurePath;
    MapAllocatedOk(s, k, perm, true);
    EnsurePathOk(s, k);
    HeadInHeap(EnsurePath(s, k).s);
    LeafAdded(EnsurePath(s, k).s, k, perm + {V}, Fill(0));
  }

  lemma FirstPage(s: State, perm: set<Flag>)
    requires Inv(s) && s.tables == map[] && s.leaves == map[] && |s.free| >= 5 && UserRights(perm)
    ensures var s1 := Step(s, NewSpace(0)).s; var op := MapNew(Page0(), perm, true, true); var t := Step(s1, op).s;
      && Legal(s, NewSpace(0)) && Clean(s, NewSpace(0)) && Legal(s1, op) && Clean(s1, op)
      && Inv(t) && |t.free| == |s.free| - 4 && t.leaves.Keys == {Page0()} && t.leaves[Page0()].flags == perm + {V}
      && t.tables.Keys == {Root(0), Mid(0, 0), Low(0, 0, 0)}
  {
    hide Inv, Step, Legal, Clean, Missing;
    SpaceMade(s, 0);
    var s1 := Step(s, NewSpace(0)).s;
    AllMissing(s1, Page0());
    PageMade(s1, Page0(), perm);
  }

  lemma SecondSpace(s: State)
    requires Inv(s) && s.tables.Keys == {Root(0), Mid(0, 0), Low(0, 0, 0)} && s.leaves.Keys == {Page0()} && s.free != []
    ensures var t := Step(s, NewSpace(1)).s; var l := Key(1, Vpn(0, 0, 0));
      && Legal(s, NewSpace(1)) && Clean(s, NewSpace(1)) && Inv(t) && |t.free| == |s.free| - 1 && t.leaves == s.leaves
      && Root(1) in t.tables && l !in t.leaves && Missing(t, l) == 2
  {
    hide Inv, Step, Legal, Clean;
    SpaceMade(s, 1);
  }

  /** Two spaces and one page of the first: five frames. */
  lemma OnePageMapped(s: State, perm: set<Flag>)
    requires Booted(s) && |s.free| >= 5 && UserRights(perm)
    ensures var ops := ShareOnePage(perm)[..3]; var t := Run(s, ops);
      && GoodRun(s, ops) && Inv(t) && |t.free| == |s.free| - 5 && Page0() in t.leaves
      && t.leaves[Page0()].flags == perm + {V}
      && Root(1) in t.tables && Key(1, Vpn(0, 0, 0)) !in t.leaves && Missing(t, Key(1, Vpn(0, 0, 0))) == 2
  {
    BootOk(s);
    hide Booted, Inv, Step, Legal, Clean, Run, GoodRun, Missing;
    var map1 := MapNew(Page0(), perm, true, true);
    FirstPage(s, perm);
    SecondSpace(Step(Step(s, NewSpace(0)).s, map1).s);
    Run3(s, NewSpace(0), map1, NewSpace(1));
    assert ShareOnePage(perm)[..3] == [NewSpace(0), map1, NewSpace(1)];
  }

  lemma AllMissing(s: State, k: Key)
    requires L1(k) !in s.tables && L0(k) !in s.tables
    ensures Missing(s, k) == 2
  {
  }

  lemma Run3(s: State, a: Op, b: Op, c: Op)
    ensures var s1 := Step(s, a).s; var s2 := Step(s1, b).s;
      && Run(s, [a, b, c]) == Step(s2, c).s
      && (GoodRun(s, [a, b, c]) <==>
           Legal(s, a) && Clean(s, a) && Legal(s1, b) && Clean(s1, b) && Legal(s2, c) && Clean(s2, c))
  {
    hide Step, Legal, Clean;
    var s1 := Step(s, a).s;
    assert [a, b, c][1..] == [b, c] && [b, c][1..] == [c] && [c][1..] == [];
    assert Run(s1, [b, c]) == Run(Step(s1, b).s, [c]);
    assert GoodRun(s1, [b, c]) <==> Legal(s1, b) && Clean(s1, b) && GoodRun(Step(s1, b).s, [c]);
  }

  /** With five frames in all, the clone that follows finds none for the child's tables and breaks the counts. */
  lemma CloneLosesReference(s: State, perm: set<Flag>)
    requires Booted(s) && |s.free| == 5 && UserRights(perm)
    ensures var ops := ShareOnePage(perm)[..3]; var t := Run(s, ops);
      && GoodRun(s, ops) && Legal(t, Clone(0, 1, Vpn(0, 0, 0)))
      && Inv(t) && !Clean(t, Clone(0, 1, Vpn(0, 0, 0))) && !Inv(Step(t, Clone(0, 1, Vpn(0, 0, 0))).s)
  {
    hide FieldsOk, Run, GoodRun;
    OnePageMapped(s, perm);
    CloneKeepsCountsIff(Run(s, ShareOnePage(perm)[..3]), 0, 1, Vpn(0, 0, 0));
  }

  /** With seven or more, both spaces name one frame. */
  lemma OnePageShared(s: State, perm: set<Flag>)
    requires Booted(s) && |s.free| >= 7 && UserRights(perm)
    ensures var t := Run(s, ShareOnePage(perm)); var l := Key(1, Vpn(0, 0, 0));
      && GoodRun(s, ShareOnePage(perm)) && Inv(t) && |t.free| == |s.free| - 7
      && Page0() in t.leaves && l in t.leaves && t.leaves[l].frame == t.leaves[Page0()].frame
      && t.leaves[Page0()].flags == MakeCopyOnWrite(perm + {V})
  {
    hide Inv, Run, GoodRun, MakeCopyOnWrite;
    OnePageMapped(s, perm);
    var clone, t := Clone(0, 1, Vpn(0, 0, 0)), Run(s, ShareOnePage(perm)[..3]);
    PageShared(t, Page0(), Key(1, Vpn(0, 0, 0)));
    RunSnoc(s, ShareOnePage(perm)[..3], clone);
    assert ShareOnePage(perm) == ShareOnePage(perm)[..3] + [clone];
  }

  /** With exactly seven, no frame is left, and a store fault breaks the counts. */
  lemma FaultLosesReference(s: State)
    requires Booted(s) && |s.free| == 7
    ensures var t := Run(s, ShareOnePage({U, R, W}));
      && GoodRun(s, ShareOnePage({U, R, W})) && Inv(t)
      && t.free == [] && MustCopy(t, Page0()) && !Inv(Step(t, Fault(Page0())).s)
  {
    hide Inv, Run, GoodRun, Step, MustCopy;
    OnePageShared(s, {U, R, W});
    var t := Run(s, ShareOnePage({U, R, W}));
    TwoOwners(t, Page0(), Key(1, Vpn(0, 0, 0)));
    FaultKeepsCountsIff(t, Page0());
  }

  /** A shared read-only page: a store asked for with `U` alone is seen by the other space. */
  lemma StoreLeaks(s: State, e: Eager) returns (val: byte)
    requires Booted(s) && |s.free| >= 7 && Simulates(Run(s, ShareOnePage({U, R})), e)
    ensures var t := Run(s, ShareOnePage({U, R}));
      && GoodRun(s, ShareOnePage({U, R})) && Inv(t) && Leaks(t, Page0(), {U}, 0, val)
      && !Refines(t, e, Store(Page0(), {U}, 0, val))
  {
    hide Inv, Run, GoodRun, Simulates, Refines, FieldsOk;
    OnePageShared(s, {U, R});
    var t := Run(s, ShareOnePage({U, R}));
    val := OtherByte(t, Page0());
    SharedCount(t, Page0(), Key(1, Vpn(0, 0, 0)));
    StoreRefinesIff(t, e, Page0(), {U}, 0, val);
  }

  lemma OtherByte(s: State, k: Key) returns (val: byte)
    requires Inv(s) && k in s.leaves && U in s.leaves[k].flags
    ensures var f := s.leaves[k].frame; f in s.mem && |s.mem[f]| == PAGE_SIZE && s.mem[f][0] != val
  {
    var f := s.leaves[k].frame;
    assert EntryOk(s.heap, s.leaves[k]) && Sized(s.mem, f);
    val := if s.mem[f][0] == 0 then 1 else 0;
  }

  /** A writable page that was shared: asking for it again with the rights it has is refused. */
  lemma RemapDiffers(s: State, e: Eager)
    requires Booted(s) && |s.free| >= 7 && Simulates(Run(s, ShareOnePage({U, R, W})), e)
    ensures var t := Run(s, ShareOnePage({U, R, W}));
      && GoodRun(s, ShareOnePage({U, R, W})) && Inv(t) && Page0() in t.leaves
      && Logical(t.leaves[Page0()].flags) * {U, R, W, X} == {U, R, W}
      && !Refines(t, e, MapNew(Page0(), {U, R, W}, true, false))
  {
    hide Inv, Run, GoodRun, Simulates, Refines;
    OnePageShared(s, {U, R, W});
    RemapAgreesIff(Run(s, ShareOnePage({U, R, W})), e, Page0(), {U, R, W}, true);
    assert ({U, R, W} + {V} - {W} + {C} + {W}) * {U, R, W, X} == {U, R, W};
    assert ({U, R, W} + {V} - {W} + {C} - {C} + {W}) * {U, R, W, X} == {U, R, W};
  }

  lemma PageShared(s: State, k: Key, l: Key)
    requires Inv(s) && k in s.leaves && l !in s.leaves && U in s.leaves[k].flags && k.vpn == l.vpn
    requires Root(l.asid) in s.tables && VpnOk(l.vpn) && Missing(s, l) <= |s.free|
    ensures var t := CloneLeaf(s, k, l).s;
      && Inv(t) && |t.free| == |s.free| - Missing(s, l) && k in t.leaves && l in t.leaves
      && t.leaves[l].frame == t.leaves[k].frame && t.leaves[k].flags == MakeCopyOnWrite(s.leaves[k].flags)
  {
    hide FieldsOk, CloneLeaf;
    CloneLeafOk(s, k, l);
    ClonedFlags(s, k, l);
  }

  /** After a clone both entries name one frame and carry the copy-on-write mark if the page was writable. */
  lemma ClonedFlags(s: State, k: Key, l: Key)
    requires Inv(s) && k in s.leaves && l !in s.leaves && U in s.leaves[k].flags && k.vpn == l.vpn
    requires Root(l.asid) in s.tables && VpnOk(l.vpn) && Missing(s, l) <= |s.free|
    ensures var t := CloneLeaf(s, k, l).s; var e := Pte(s.leaves[k].frame, MakeCopyOnWrite(s.leaves[k].flags));
      k in t.leaves && l in t.leaves && t.leaves[k] == e && t.leaves[l] == e
  {
    assert EntryOk(s.heap, s.leaves[k]);
    hide FieldsOk, EnsurePath, CloneLeaf;
    LeafFrame(s, k);
    ParentProtected(s, k);
    EnsurePathOk(Protected(s, k), l);
    CloneLeafShape(s, k, l);
  }

  lemma SharedCount(s: State, k: Key, l: Key)
    requires Inv(s) && k in s.leaves && l in s.leaves && k != l && s.leaves[k].frame == s.leaves[l].frame
    requires U in s.leaves[k].flags
    ensures s.leaves[k].frame in s.count && s.count[s.leaves[k].frame] != 1
  {
    assert EntryOk(s.heap, s.leaves[k]);
    hide FieldsOk;
    LeafFrame(s, k);
    LeafFrame(s, l);
    var f := s.leaves[k].frame;
    if s.count[f] == 1 { SoleMember(Refs(s.leaves, f), k); }
  }

  lemma TwoOwners(s: State, k: Key, l: Key)
    requires Inv(s) && k in s.leaves && l in s.leaves && k != l && s.leaves[k].frame == s.leaves[l].frame
    requires {U, C} <= s.leaves[k].flags
    ensures MustCopy(s, k)
  {
    CowEntry(s, k);
    hide Inv;
    SharedCount(s, k, l);
  }

  lemma {:induction false} RunSnoc(s: State, ops: seq<Op>, op: Op)
    ensures Run(s, ops + [op]) == Step(Run(s, ops), op).s
    ensures GoodRun(s, ops + [op]) <==> GoodRun(s, ops) && Legal(Run(s, ops), op) && Clean(Run(s, ops), op)
    ensures Outcomes(s, ops + [op])[|ops|] == Step(Run(s, ops), op).out
    decreases |ops|
  {
    hide Step, Legal, Clean;
    if ops == [] {
      assert (ops + [op])[1..] == [];
    } else {
      assert (ops + [op])[1..] == ops[1..] + [op];
      RunSnoc(Step(s, ops[0]).s, ops[1..], op);
    }
  }
}
