/** Physical frames, reference counts and many user address spaces at once.

    The tables of all address spaces form one heap of nodes: a leaf entry is keyed by its space and the
    three level indices of its virtual page, a table page by its space and the indices above it.
    User tables hold only 4 KiB leaves (`assert_eq!(level, 0)` guards every other case). */
module VirtualMemory {
  import opened Common

  /** `u32::MAX`: the count of a page that must not be shared (table pages). */
  const NON_SHAREABLE: nat := 0xFFFF_FFFF

  type Page = seq<byte>

  datatype Flag = V | R | W | X | U | G | A | D | C

  datatype Vpn = Vpn(i2: nat, i1: nat, i0: nat)
  datatype Key = Key(asid: nat, vpn: Vpn)
  datatype Node = Root(asid: nat) | Mid(asid: nat, i2: nat) | Low(asid: nat, i2: nat, i1: nat)
  datatype Pte = Pte(frame: nat, flags: set<Flag>)

  datatype State = State(
    heap: set<nat>,          // frames owned by the page manager
    mem: map<nat, Page>,     // contents of the heap frames
    rom: map<nat, Page>,     // contents of the other frames
    count: map<nat, nat>,    // ref_count of each heap frame
    free: seq<nat>,          // the allocator's free list, head first
    leaves: map<Key, Pte>,
    tables: map<Node, nat>)

  datatype Outcome = Done | Failed | Panicked
  datatype Result = Result(s: State, out: Outcome)

  datatype Op =
    | NewSpace(asid: nat)
    | MapNew(key: Key, perm: set<Flag>, zeroed: bool, allocateNew: bool)
    | MapFixed(key: Key, frame: nat, perm: set<Flag>)
    | Clone(src: nat, dst: nat, vpn: Vpn)
    | Fault(key: Key)
    | Store(key: Key, need: set<Flag>, off: nat, val: byte)
    | Unmap(key: Key)
    | FreeTable(node: Node)

  function Fill(b: byte): (p: Page)
    ensures |p| == PAGE_SIZE
  {
    seq(PAGE_SIZE, _ => b)
  }

  function L1(k: Key): Node {
    Mid(k.asid, k.vpn.i2)
  }

  function L0(k: Key): Node {
    Low(k.asid, k.vpn.i2, k.vpn.i1)
  }

  function Parent(n: Node): Node {
    match n
    case Root(a) => n
    case Mid(a, _) => Root(a)
    case Low(a, i2, _) => Mid(a, i2)
  }

  predicate IsLeaf(flags: set<Flag>) {
    V in flags && flags * {R, W, X} != {}
  }

  function Contents(s: State, f: nat): Page {
    if f in s.heap && f in s.mem then s.mem[f] else if f in s.rom then s.rom[f] else Fill(0)
  }

  // ----- page manager -----

  /** `Page::alloc*`: pop the free list, move the count from 0 to `c`, initialise the page. */
  function Take(s: State, c: nat, content: Page): Result {
    if s.free == [] then Result(s, Failed)
    else
      var f := s.free[0];
      if f !in s.count || s.count[f] != 0 then Result(s, Panicked)
      else Result(s.(free := s.free[1..], count := s.count[f := c], mem := s.mem[f := content]), Done)
  }

  /** `Page::drop`: a non-shareable page is freed at once, a shared one when its last reference goes. */
  function Release(s: State, f: nat): Result {
    if f !in s.count || s.count[f] == 0 then Result(s, Panicked)
    else if s.count[f] == NON_SHAREABLE || s.count[f] <= 1 then
      Result(s.(free := [f] + s.free, count := s.count[f := 0], mem := s.mem[f := Fill(1)]), Done)
    else Result(s.(count := s.count[f := s.count[f] - 1]), Done)
  }

  // ----- page table entries -----

  function MakeCopyOnWrite(flags: set<Flag>): set<Flag> {
    if W in flags then flags - {W} + {C} else flags
  }

  /** `PtEntry::request_user_write`. When the copy cannot be allocated the reference held by this
      entry is dropped although the entry stays. */
  function RequestUserWrite(s: State, k: Key): Result {
    if k !in s.leaves then Result(s, Failed)
    else
      var Pte(f, flags) := s.leaves[k];
      if {U, W} <= flags then Result(s, Done)
      else if !({U, C} <= flags) then Result(s, Failed)
      else if f !in s.count then Result(s, Panicked)
      else
        var writable := flags - {C} + {W};
        if s.count[f] == 1 then Result(s.(leaves := s.leaves[k := Pte(f, writable)]), Done)
        else
          var t := Take(s, 1, Contents(s, f));
          if t.out.Panicked? then t
          else if t.out.Failed? then Result(Release(s, f).s, if Release(s, f).out.Panicked? then Panicked else Failed)
          else Release(t.s.(leaves := s.leaves[k := Pte(s.free[0], writable)]), f)
  }

  /** `PtEntry::free` on a leaf: only heap frames are given back. */
  function FreeLeaf(s: State, k: Key): Result {
    if k !in s.leaves then Result(s, Done)
    else
      var f := s.leaves[k].frame;
      var s1 := s.(leaves := s.leaves - {k});
      if f in s.heap then Release(s1, f) else Result(s1, Done)
  }

  // ----- page tables -----

  function EnsureTable(s: State, n: Node): Result {
    if n in s.tables then Result(s, Done)
    else
      var t := Take(s, NON_SHAREABLE, Fill(0));
      if !t.out.Done? then t else Result(t.s.(tables := s.tables[n := s.free[0]]), Done)
  }

  /** `find_or_create_leaf(0, va)`. */
  function EnsurePath(s: State, k: Key): Result {
    if Root(k.asid) !in s.tables then Result(s, Panicked)
    else
      var r := EnsureTable(s, L1(k));
      if !r.out.Done? then r else EnsureTable(r.s, L0(k))
  }

  /** `map_page` with a freshly allocated page. */
  function MapAllocated(s: State, k: Key, perm: set<Flag>, zeroed: bool, allocateNew: bool): Result {
    var r := EnsurePath(s, k);
    if !r.out.Done? then r
    else if k in r.s.leaves then
      if allocateNew then Result(r.s, Panicked)
      else Result(r.s, if r.s.leaves[k].flags * {U, R, W, X} == perm then Done else Failed)
    else
      var t := Take(r.s, 1, Fill(if zeroed then 0 else 5));
      if !t.out.Done? then t
      else Result(t.s.(leaves := t.s.leaves[k := Pte(r.s.free[0], perm + {V})]), Done)
  }

  /** `map_page` with a fixed physical page. */
  function MapFrame(s: State, k: Key, f: nat, flags: set<Flag>): Result {
    var r := EnsurePath(s, k);
    if !r.out.Done? then r
    else if k in r.s.leaves then Result(r.s, Panicked)
    else Result(r.s.(leaves := r.s.leaves[k := Pte(f, flags + {V})]), Done)
  }

  /** One round of the loop of `clone_pages_from`. */
  function CloneLeaf(s: State, src: Key, dst: Key): Result {
    if src !in s.leaves then Result(s, Done)
    else
      var Pte(f, flags) := s.leaves[src];
      if U !in flags then Result(s, Failed)
      else
        var cow := MakeCopyOnWrite(flags);
        var s1 := s.(leaves := s.leaves[src := Pte(f, cow)]);
        if f !in s1.count || s1.count[f] == NON_SHAREABLE then Result(s1, Panicked)
        else MapFrame(s1.(count := s1.count[f := s1.count[f] + 1]), dst, f, cow)
  }

  /** A store through `fetch_chunk_mut`, or by the CPU with the fault handler in between: both
      ask for a private page first when the entry is copy-on-write. */
  function StoreByte(s: State, k: Key, need: set<Flag>, off: nat, val: byte): Result {
    if k !in s.leaves then Result(s, Failed)
    else
      var r := if C in s.leaves[k].flags then RequestUserWrite(s, k) else Result(s, Done);
      if !r.out.Done? then r
      else if k !in r.s.leaves || !(need <= r.s.leaves[k].flags) then Result(r.s, Failed)
      else
        var f := r.s.leaves[k].frame;
        if f !in r.s.mem || off >= |r.s.mem[f]| then Result(r.s, Panicked)
        else Result(r.s.(mem := r.s.mem[f := r.s.mem[f][off := val]]), Done)
  }

  function Step(s: State, op: Op): Result {
    match op
    case NewSpace(a) => EnsureTable(s, Root(a))
    case MapNew(k, perm, zeroed, allocateNew) => MapAllocated(s, k, perm, zeroed, allocateNew)
    case MapFixed(k, f, perm) => MapFrame(s, k, f, perm)
    case Clone(src, dst, v) => CloneLeaf(s, Key(src, v), Key(dst, v))
    case Fault(k) => RequestUserWrite(s, k)
    case Store(k, need, off, val) => StoreByte(s, k, need, off, val)
    case Unmap(k) => FreeLeaf(s, k)
    case FreeTable(n) =>
      if n !in s.tables then Result(s, Panicked)
      else Release(s.(tables := s.tables - {n}), s.tables[n])
  }

  function Run(s: State, ops: seq<Op>): State
    decreases |ops|
  {
    if ops == [] then s else Run(Step(s, ops[0]).s, ops[1..])
  }

  // ----- the invariant -----

  ghost function Refs(leaves: map<Key, Pte>, f: nat): set<Key> {
    set k | k in leaves && leaves[k].frame == f
  }

  ghost function TableRefs(tables: map<Node, nat>, f: nat): set<Node> {
    set n | n in tables && tables[n] == f
  }

  ghost predicate NoDup(q: seq<nat>) {
    forall i, j {:trigger Differ(q, i, j)} :: 0 <= i < j < |q| ==> Differ(q, i, j)
  }

  ghost predicate Differ(q: seq<nat>, i: nat, j: nat)
    requires i < j < |q|
  {
    q[i] != q[j]
  }

  /** A frame is on the free list, once, exactly when its count is 0. */
  ghost predicate FreeListOk(heap: set<nat>, count: map<nat, nat>, free: seq<nat>) {
    && count.Keys == heap
    && NoDup(free)
    && (forall f :: f in free ==> f in heap)
    && (forall f :: f in heap ==> (f in free <==> count[f] == 0))
  }

  /** The count of a frame is the number of leaf entries naming it in all tables together,
      or the non-shareable mark when it holds exactly one table page. */
  ghost predicate Counted(count: map<nat, nat>, leaves: map<Key, Pte>, tables: map<Node, nat>, f: nat) {
    && f in count
    && if TableRefs(tables, f) == {} then count[f] == |Refs(leaves, f)| < NON_SHAREABLE
       else count[f] == NON_SHAREABLE && |TableRefs(tables, f)| == 1 && Refs(leaves, f) == {}
  }

  ghost predicate CountsOk(heap: set<nat>, count: map<nat, nat>, leaves: map<Key, Pte>, tables: map<Node, nat>) {
    && (forall f {:trigger Counted(count, leaves, tables, f)} :: f in heap ==> Counted(count, leaves, tables, f))
    && (forall n :: n in tables ==> tables[n] in heap)
  }

  /** Flags of one entry: it stays a leaf, `W` and `C` exclude each other, `C` marks user heap pages. */
  ghost predicate EntryOk(heap: set<nat>, e: Pte) {
    && V in e.flags
    && (R in e.flags || X in e.flags)
    && (W in e.flags ==> C !in e.flags && e.frame in heap)
    && (C in e.flags ==> U in e.flags)
    && (U in e.flags ==> e.frame in heap)
  }

  /** Every entry is sound, a writable frame belongs to one entry alone, and a user page is shared only by
      entries for the same page number. */
  ghost predicate EntriesOk(heap: set<nat>, leaves: map<Key, Pte>) {
    && (forall k :: k in leaves ==> EntryOk(heap, leaves[k]))
    && (forall k, l {:trigger Exclusive(leaves, k, l)} :: k in leaves && l in leaves ==> Exclusive(leaves, k, l))
  }

  ghost predicate Exclusive(leaves: map<Key, Pte>, k: Key, l: Key)
    requires k in leaves && l in leaves
  {
    leaves[k].frame == leaves[l].frame ==>
      && (W in leaves[k].flags ==> k == l)
      && (U in leaves[k].flags ==> k.vpn == l.vpn)
  }

  /** Indices of a table page or an entry stay below 512. */
  predicate VpnOk(v: Vpn) {
    v.i2 < 512 && v.i1 < 512 && v.i0 < 512
  }

  predicate IndexOk(n: Node) {
    (n.Mid? ==> n.i2 < 512) && (n.Low? ==> n.i1 < 512)
  }

  ghost predicate HasPath(tables: map<Node, nat>, k: Key) {
    VpnOk(k.vpn) && L0(k) in tables && L1(k) in tables && Root(k.asid) in tables
  }

  ghost predicate NodeOk(tables: map<Node, nat>, n: Node) {
    Parent(n) in tables && IndexOk(n)
  }

  /** Every leaf and every table page hangs below its ancestors. */
  ghost predicate TreesOk(leaves: map<Key, Pte>, tables: map<Node, nat>) {
    && (forall k {:trigger HasPath(tables, k)} :: k in leaves ==> HasPath(tables, k))
    && (forall n {:trigger NodeOk(tables, n)} :: n in tables ==> NodeOk(tables, n))
  }

  ghost predicate PagesOk(heap: set<nat>, mem: map<nat, Page>) {
    forall f {:trigger Sized(mem, f)} :: Sized(mem, f) <==> f in heap
  }

  ghost predicate Sized(mem: map<nat, Page>, f: nat) {
    f in mem && |mem[f]| == PAGE_SIZE
  }

  ghost predicate FieldsOk(heap: set<nat>, mem: map<nat, Page>, count: map<nat, nat>, free: seq<nat>,
                           leaves: map<Key, Pte>, tables: map<Node, nat>) {
    && PagesOk(heap, mem)
    && FreeListOk(heap, count, free)
    && CountsOk(heap, count, leaves, tables)
    && EntriesOk(heap, leaves)
    && TreesOk(leaves, tables)
    && 512 * |heap| < NON_SHAREABLE
  }

  ghost predicate Inv(s: State) {
    FieldsOk(s.heap, s.mem, s.count, s.free, s.leaves, s.tables)
  }

  /** Mapping over a page gets the same answer from the flags as stored and from those the space has: not so when
      a fork has taken `W` away and the caller asks for either. */
  predicate SameAnswer(flags: set<Flag>, perm: set<Flag>) {
    C in flags ==> flags * {U, R, W, X} != perm && (flags + {W}) * {U, R, W, X} != perm
  }

  /** A store through an entry that is neither writable nor copy-on-write reaches a frame other entries name too,
      and changes it. */
  predicate Leaks(s: State, k: Key, need: set<Flag>, off: nat, val: byte) {
    && k in s.leaves && need <= s.leaves[k].flags && W !in s.leaves[k].flags && C !in s.leaves[k].flags
    && var f := s.leaves[k].frame;
    && f in s.count && s.count[f] != 1 && f in s.mem && off < |s.mem[f]| && s.mem[f][off] != val
  }

  /** What the kernel promises when it issues an operation: spaces exist, fresh mappings are unmapped,
      permissions are readable or executable leaves, fixed frames are read-only kernel frames. */
  ghost predicate Legal(s: State, op: Op) {
    match op
    case NewSpace(a) => Root(a) !in s.tables
    case MapNew(k, perm, _, allocateNew) =>
      && Root(k.asid) in s.tables && VpnOk(k.vpn) && perm <= {U, R, W, X} && (R in perm || X in perm)
      && (k in s.leaves ==> !allocateNew && SameAnswer(s.leaves[k].flags, perm))
    case MapFixed(k, f, perm) =>
      Root(k.asid) in s.tables && VpnOk(k.vpn) && k !in s.leaves && f !in s.heap && perm <= {R, X} && perm != {}
    case Clone(src, dst, v) =>
      src != dst && Root(dst) in s.tables && Key(dst, v) !in s.leaves
    case Fault(k) => true
    case Store(k, need, off, val) => (W in need || U in need) && off < PAGE_SIZE && !Leaks(s, k, need, off, val)
    case Unmap(k) => true
    case FreeTable(n) => n in s.tables && Childless(s.leaves, s.tables, n)
  }

  /** Nothing hangs below the table page. */
  ghost predicate Childless(leaves: map<Key, Pte>, tables: map<Node, nat>, n: Node) {
    && (forall k :: k in leaves ==> L0(k) != n && L1(k) != n && Root(k.asid) != n)
    && (forall m :: m in tables && m != n ==> Parent(m) != n)
  }
}
