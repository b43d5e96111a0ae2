/** The user-space heap: a circular, address-ordered free list whose headers live in the managed memory.

    Addresses count header-sized units (16 bytes). `BASE` is the static header below the heap. */
module Malloc {
  import opened Common
  import opened Options

  /** One unit of memory seen as a block header. */
  datatype Header = Header(next: nat, size: nat)

  type Memory = map<nat, Header>

  // ----- the free list -----

  function Succ(fl: seq<nat>, i: nat): nat
    requires i < |fl|
  {
    if i + 1 < |fl| then fl[i + 1] else fl[0]
  }

  /** Entry `i` links to its successor, the last one back to BASE; only BASE is empty. */
  ghost predicate Linked(mem: Memory, fl: seq<nat>, i: nat)
    requires i < |fl|
  {
    fl[i] in mem && mem[fl[i]].next == Succ(fl, i) && (mem[fl[i]].size == 0 <==> i == 0)
  }

  /** A gap separates two free blocks: they are in address order and do not touch. */
  ghost predicate Apart(mem: Memory, fl: seq<nat>, i: nat, j: nat)
    requires i < j < |fl|
  {
    fl[i] in mem && fl[i] + mem[fl[i]].size < fl[j]
  }

  /** The free list as a sequence in address order, starting at BASE. */
  ghost predicate ListOk(mem: Memory, base: nat, fl: seq<nat>) {
    && |fl| > 0 && fl[0] == base
    && (forall i {:trigger Linked(mem, fl, i)} :: 0 <= i < |fl| ==> Linked(mem, fl, i))
    && (forall i, j {:trigger Apart(mem, fl, i, j)} :: 0 <= i < j < |fl| ==> Apart(mem, fl, i, j))
  }

  // ----- live and free blocks tile the heap -----

  ghost predicate IsBlock(base: nat, fl: seq<nat>, live: map<nat, nat>, b: nat) {
    b in live || (b in fl && b != base)
  }

  /** Block `b` is sound and all its units are its own. */
  ghost predicate Holds(mem: Memory, owner: map<nat, nat>, b: nat) {
    b in mem && mem[b].size > 0 && forall u {:trigger u in owner} :: b <= u < b + mem[b].size ==>
      u in owner && owner[u] == b
  }

  /** Unit `u` lies in the block that owns it. */
  ghost predicate Lies(mem: Memory, base: nat, fl: seq<nat>, live: map<nat, nat>, owner: map<nat, nat>, u: nat)
    requires u in owner
  {
    IsBlock(base, fl, live, owner[u]) && owner[u] in mem && owner[u] <= u < owner[u] + mem[owner[u]].size
  }

  /** Every unit above BASE belongs to exactly one block, live or free. */
  ghost predicate Tiled(mem: Memory, base: nat, fl: seq<nat>, live: map<nat, nat>, owner: map<nat, nat>) {
    && base in mem && owner.Keys == mem.Keys - {base}
    && (forall u {:trigger u in owner} :: u in owner ==> base < u)
    && (forall b {:trigger IsBlock(base, fl, live, b)} :: IsBlock(base, fl, live, b) ==> Holds(mem, owner, b))
    && (forall u {:trigger Lies(mem, base, fl, live, owner, u)} :: u in owner ==> Lies(mem, base, fl, live, owner, u))
    && (forall a {:trigger a in live} :: a in live ==> a !in fl && a in mem && mem[a].size == live[a])
  }

  ghost predicate HeapOk(mem: Memory, base: nat, fl: seq<nat>, live: map<nat, nat>, owner: map<nat, nat>) {
    ListOk(mem, base, fl) && Tiled(mem, base, fl, live, owner)
  }

  // ----- splicing the list -----

  /** The entries between `i` and `j` are replaced by `mid` (at most one entry). */
  lemma ListSpliced(mem: Memory, mem': Memory, base: nat, fl: seq<nat>, i: nat, mid: seq<nat>, j: nat)
    requires ListOk(mem, base, fl) && i < j <= |fl| && |mid| <= 1
    requires forall k {:trigger fl[k]} ::
      0 <= k < i || j <= k < |fl| ==> fl[k] in mem && fl[k] in mem' && mem'[fl[k]] == mem[fl[k]]
    requires fl[i] in mem' && (mem'[fl[i]].size == 0 <==> i == 0)
    requires var after := if j < |fl| then fl[j] else base;
      if mid == [] then mem'[fl[i]].next == after && (j < |fl| ==> fl[i] + mem'[fl[i]].size < fl[j])
      else
        && mem'[fl[i]].next == mid[0] && fl[i] + mem'[fl[i]].size < mid[0]
        && mid[0] in mem' && mem'[mid[0]].size > 0 && mem'[mid[0]].next == after
        && (j < |fl| ==> mid[0] + mem'[mid[0]].size < fl[j])
    ensures ListOk(mem', base, fl[..i + 1] + mid + fl[j..])
  {
    var fl' := fl[..i + 1] + mid + fl[j..];
    var d := i + 1 + |mid|;
    forall k | 0 <= k < |fl'| ensures Linked(mem', fl', k) {
      if k < i { assert Linked(mem, fl, k); }
      else if k >= d { assert Linked(mem, fl, k - d + j); }
    }
    forall k, l | 0 <= k < l < |fl'| ensures Apart(mem', fl', k, l) {
      assert k < i && l <= i ==> Apart(mem, fl, k, l);
      assert k < i && l >= d ==> Apart(mem, fl, k, l - d + j);
      assert k < i ==> Apart(mem, fl, k, i);
      assert k >= d ==> Apart(mem, fl, k - d + j, l - d + j);
      assert l > d && j < |fl| ==> Apart(mem, fl, j, l - d + j);
    }
  }

  // ----- tiling -----

  lemma BlocksDisjoint(mem: Memory, base: nat, fl: seq<nat>, live: map<nat, nat>, owner: map<nat, nat>, b: nat, c: nat)
    requires Tiled(mem, base, fl, live, owner) && IsBlock(base, fl, live, b) && IsBlock(base, fl, live, c) && b < c
    ensures b in mem && c in mem && mem[b].size > 0 && mem[c].size > 0 && b + mem[b].size <= c
  {
    assert Holds(mem, owner, b) && Holds(mem, owner, c);
    assert c in owner && owner[c] == c;
  }

  function Relabel(owner: map<nat, nat>, labels: set<nat>, start: nat): map<nat, nat> {
    map u | u in owner :: if owner[u] in labels then start else owner[u]
  }

  function Claim(owner: map<nat, nat>, b: nat, n: nat): map<nat, nat> {
    map u | u in owner :: if b <= u < b + n then b else owner[u]
  }

  function Enlarge(owner: map<nat, nat>, mem: Memory, base: nat, b: nat): map<nat, nat> {
    map u | u in mem && u != base :: if u in owner then owner[u] else b
  }

  /** The blocks `labels` become the one block `start`. */
  lemma TiledMerged(mem: Memory, mem': Memory, base: nat, fl: seq<nat>, fl': seq<nat>, live: map<nat, nat>,
                    live': map<nat, nat>,
                    owner: map<nat, nat>, labels: set<nat>, start: nat)
    requires Tiled(mem, base, fl, live, owner) && mem'.Keys == mem.Keys && start in mem && mem'[start].size > 0
    requires forall x {:trigger x in mem'} :: x in mem && x !in labels && x != base ==> mem'[x].size == mem[x].size
    requires forall b {:trigger IsBlock(base, fl', live', b)} ::
      IsBlock(base, fl', live', b) <==> b == start || (IsBlock(base, fl, live, b) && b !in labels)
    requires start in labels
    requires forall u {:trigger u in owner} ::
      start <= u < start + mem'[start].size <==> u in owner && owner[u] in labels
    requires forall a {:trigger a in live'} :: a in live' ==> a !in fl' && a in mem' && mem'[a].size == live'[a]
    ensures Tiled(mem', base, fl', live', Relabel(owner, labels, start))
  {
    var owner' := Relabel(owner, labels, start);
    forall b: nat | IsBlock(base, fl', live', b) ensures Holds(mem', owner', b) {
      if b != start {
        assert IsBlock(base, fl, live, b) && Holds(mem, owner, b);
        assert b in owner && b != base && b in mem';
        forall u | b <= u < b + mem'[b].size
          ensures u in owner' && owner'[u] == b
        {
          assert u in owner && owner[u] == b;
        }
      } else {
        forall u | start <= u < start + mem'[start].size
          ensures u in owner' && owner'[u] == start
        {
          assert u in owner && owner[u] in labels;
        }
      }
    }
    forall u | u in owner' ensures Lies(mem', base, fl', live', owner', u) {
      assert Lies(mem, base, fl, live, owner, u);
      assert IsBlock(base, fl', live', owner'[u]);
      if owner[u] !in labels {
        assert Holds(mem, owner, owner[u]) && owner[u] in owner && owner[u] != base && owner[u] in mem';
      }
    }
  }

  /** The tail of free block `p`, from `b` on, becomes a live block. */
  lemma TiledSplit(mem: Memory, mem': Memory, base: nat, fl: seq<nat>, live: map<nat, nat>, owner: map<nat, nat>,
                   p: nat, b: nat)
    requires Tiled(mem, base, fl, live, owner) && p in fl && p != base && p < b && b in mem
    requires p in mem && b < p + mem[p].size && mem'.Keys == mem.Keys
    requires mem'[p].size == b - p && mem'[b].size == p + mem[p].size - b
    requires forall x {:trigger x in mem'} :: x in mem && x != p && x != b ==> mem'[x] == mem[x]
    ensures b !in live && b !in fl
    ensures Tiled(mem', base, fl, live[b := mem'[b].size], Claim(owner, b, mem'[b].size))
  {
    assert IsBlock(base, fl, live, p) && Holds(mem, owner, p);
    assert b in owner && owner[b] == p;
    assert IsBlock(base, fl, live, b) ==> Holds(mem, owner, b);
    forall c: nat | IsBlock(base, fl, live[b := mem'[b].size], c)
      ensures Holds(mem', Claim(owner, b, mem'[b].size), c)
    {
      SplitHolds(mem, mem', base, fl, live, owner, p, b, c);
    }
    forall u | u in owner ensures Lies(mem', base, fl, live[b := mem'[b].size], Claim(owner, b, mem'[b].size), u) {
      SplitLies(mem, mem', base, fl, live, owner, p, b, u);
    }
  }

  lemma SplitHolds(mem: Memory, mem': Memory, base: nat, fl: seq<nat>, live: map<nat, nat>, owner: map<nat, nat>,
                   p: nat, b: nat, c: nat)
    requires Tiled(mem, base, fl, live, owner) && Holds(mem, owner, p) && p < b < p + mem[p].size && b in mem
    requires mem'.Keys == mem.Keys
    requires mem'[p].size == b - p && mem'[b].size == p + mem[p].size - b
    requires forall x {:trigger x in mem'} :: x in mem && x != p && x != b ==> mem'[x] == mem[x]
    requires c == b || IsBlock(base, fl, live, c)
    ensures Holds(mem', Claim(owner, b, mem'[b].size), c)
  {
    if c != b {
      assert Holds(mem, owner, c);
      assert c in owner && c in mem';
      forall u | c <= u < c + mem'[c].size ensures u in owner && owner[u] == c { assert u in owner; }
    } else {
      forall u | b <= u < b + mem'[b].size ensures u in owner { assert u in owner; }
    }
  }

  lemma SplitLies(mem: Memory, mem': Memory, base: nat, fl: seq<nat>, live: map<nat, nat>, owner: map<nat, nat>, p: nat,
                  b: nat, u: nat)
    requires Tiled(mem, base, fl, live, owner) && Holds(mem, owner, p) && p < b < p + mem[p].size && b in mem
    requires mem'.Keys == mem.Keys
    requires mem'[p].size == b - p && mem'[b].size == p + mem[p].size - b && b !in live && b !in fl
    requires forall x {:trigger x in mem'} :: x in mem && x != p && x != b ==> mem'[x] == mem[x]
    requires u in owner
    ensures Lies(mem', base, fl, live[b := mem'[b].size], Claim(owner, b, mem'[b].size), u)
  {
    assert Lies(mem, base, fl, live, owner, u);
    assert owner[u] in mem' && owner[u] != b;
  }

  /** Fresh units above everything else become a live block. */
  lemma TiledGrown(mem: Memory, mem': Memory, base: nat, fl: seq<nat>, live: map<nat, nat>, owner: map<nat, nat>,
                   b: nat, n: nat)
    requires Tiled(mem, base, fl, live, owner) && n > 0 && b > base && forall u :: u in mem ==> u < b
    requires forall u {:trigger u in mem'} :: u in mem' <==> u in mem || b <= u < b + n
    requires forall u {:trigger u in mem} :: u in mem ==> mem'[u] == mem[u]
    requires b in mem' && mem'[b].size == n && forall x :: x in fl ==> x in mem
    ensures Tiled(mem', base, fl, live[b := n], Enlarge(owner, mem', base, b))
  {
    var live', owner' := live[b := n], Enlarge(owner, mem', base, b);
    assert owner'.Keys == mem'.Keys - {base};
    assert IsBlock(base, fl, live, b) ==> Holds(mem, owner, b);
    forall c: nat | IsBlock(base, fl, live', c) ensures Holds(mem', owner', c) {
      if c != b {
        assert IsBlock(base, fl, live, c) && Holds(mem, owner, c);
        forall u | c <= u < c + mem'[c].size
          ensures u in owner' && owner'[u] == c
        {
          assert u in owner && owner[u] == c;
        }
      }
    }
    forall u | u in owner' ensures Lies(mem', base, fl, live', owner', u) {
      if u < b { assert u in owner && Lies(mem, base, fl, live, owner, u); }
      assert IsBlock(base, fl, live', owner'[u]);
    }
  }

  // ----- giving a block back -----

  lemma Distinct(mem: Memory, base: nat, fl: seq<nat>, i: nat, j: nat)
    requires ListOk(mem, base, fl) && i < |fl| && j < |fl|
    ensures fl[i] == fl[j] <==> i == j
  {
    if i < j { assert Apart(mem, fl, i, j); } else if j < i { assert Apart(mem, fl, j, i); }
  }

  /** `fl[i]` is the free block after which `bp` belongs. */
  ghost predicate Position(fl: seq<nat>, bp: nat, i: nat) {
    i < |fl| && fl[i] < bp && (i + 1 < |fl| ==> bp < fl[i + 1])
  }

  lemma {:induction false} PositionExists(mem: Memory, base: nat, fl: seq<nat>, bp: nat, n: nat) returns (i: nat)
    requires ListOk(mem, base, fl) && bp !in fl && base < bp && 0 < n <= |fl| && (n < |fl| ==> bp < fl[n])
    ensures Position(fl, bp, i)
  {
    if fl[n - 1] < bp { i := n - 1; }
    else { i := PositionExists(mem, base, fl, bp, n - 1); }
  }

  /** The writes of `free` once the place `p` is found: join to the upper neighbour, then to the lower one. */
  function Coalesce(mem: Memory, p: nat, bp: nat): Memory
    requires p in mem && bp in mem && mem[p].next in mem && p != bp
  {
    var next := mem[p].next;
    var b := if bp + mem[bp].size == next then Header(mem[next].next, mem[bp].size + mem[next].size)
             else Header(next, mem[bp].size);
    var q := if p + mem[p].size == bp then Header(b.next, mem[p].size + b.size) else Header(bp, mem[p].size);
    mem[bp := b][p := q]
  }

  ghost function Joined(mem: Memory, fl: seq<nat>, bp: nat, i: nat): (r: (seq<nat>, set<nat>, nat))
    requires i < |fl| && fl[i] in mem && bp in mem
  {
    var up := i + 1 < |fl| && bp + mem[bp].size == fl[i + 1];
    var low := fl[i] + mem[fl[i]].size == bp;
    var j := if up then i + 2 else i + 1;
    (fl[..i + 1] + (if low then [] else [bp]) + fl[j..],
     {bp} + (if up then {fl[i + 1]} else {}) + (if low then {fl[i]} else {}),
     if low then fl[i] else bp)
  }

  lemma FreedOk(mem: Memory, base: nat, fl: seq<nat>, live: map<nat, nat>, owner: map<nat, nat>, bp: nat, i: nat)
    requires HeapOk(mem, base, fl, live, owner) && bp in live && Position(fl, bp, i)
    ensures fl[i] in mem && mem[fl[i]].next in mem
    ensures var (fl', labels, start) := Joined(mem, fl, bp, i);
      HeapOk(Coalesce(mem, fl[i], bp), base, fl', live - {bp}, Relabel(owner, labels, start))
  {
    assert IsBlock(base, fl, live, bp) && Holds(mem, owner, bp) && bp in owner;
    assert Linked(mem, fl, i);
    assert Linked(mem, fl, if i + 1 < |fl| then i + 1 else 0) && Linked(mem, fl, 0);
    if i > 0 { assert Apart(mem, fl, 0, i); BlocksDisjoint(mem, base, fl, live, owner, fl[i], bp); }
    if i + 1 < |fl| { assert Apart(mem, fl, 0, i + 1); BlocksDisjoint(mem, base, fl, live, owner, bp, fl[i + 1]); }
    FreedListOk(mem, base, fl, live, bp, i);
    FreedTiledOk(mem, base, fl, live, owner, bp, i);
  }

  /** Facts about the neighbours of a block being freed. */
  ghost predicate Fits(mem: Memory, base: nat, fl: seq<nat>, bp: nat, i: nat) {
    && Position(fl, bp, i) && bp in mem && mem[bp].size > 0 && bp !in fl && base < bp
    && fl[i] in mem && mem[fl[i]].next == Succ(fl, i) && Succ(fl, i) in mem && fl[i] + mem[fl[i]].size <= bp
    && (i + 1 < |fl| ==> bp + mem[bp].size <= fl[i + 1] && mem[fl[i + 1]].size > 0)
  }

  lemma FreedListOk(mem: Memory, base: nat, fl: seq<nat>, live: map<nat, nat>, bp: nat, i: nat)
    requires ListOk(mem, base, fl) && Fits(mem, base, fl, bp, i)
    ensures ListOk(Coalesce(mem, fl[i], bp), base, Joined(mem, fl, bp, i).0)
  {
    var mem' := Coalesce(mem, fl[i], bp);
    var up := i + 1 < |fl| && bp + mem[bp].size == fl[i + 1];
    var low := fl[i] + mem[fl[i]].size == bp;
    var j := if up then i + 2 else i + 1;
    assert Linked(mem, fl, i) && (i + 1 < |fl| ==> Linked(mem, fl, i + 1) && Apart(mem, fl, i, i + 1));
    assert i + 2 < |fl| ==> Apart(mem, fl, i + 1, i + 2);
    forall k | 0 <= k < i || j <= k < |fl| ensures fl[k] in mem && fl[k] in mem' && mem'[fl[k]] == mem[fl[k]] {
      assert Linked(mem, fl, k);
      Distinct(mem, base, fl, k, i);
    }
    ListSpliced(mem, mem', base, fl, i, if low then [] else [bp], j);
  }

  lemma FreedTiledOk(mem: Memory, base: nat, fl: seq<nat>, live: map<nat, nat>, owner: map<nat, nat>, bp: nat, i: nat)
    requires HeapOk(mem, base, fl, live, owner) && bp in live && Fits(mem, base, fl, bp, i)
    ensures var (fl', labels, start) := Joined(mem, fl, bp, i);
      Tiled(Coalesce(mem, fl[i], bp), base, fl', live - {bp}, Relabel(owner, labels, start))
  {
    var mem' := Coalesce(mem, fl[i], bp);
    var (fl', labels, start) := Joined(mem, fl, bp, i);
    forall b: nat
      ensures IsBlock(base, fl', live - {bp}, b) <==> b == start || (IsBlock(base, fl, live, b) && b !in labels)
    {
      JoinedMembers(mem, base, fl, bp, i, b);
      assert Linked(mem, fl, 0) && (i + 1 < |fl| ==> Apart(mem, fl, 0, i + 1)) && (b in live ==> b !in fl);
    }
    forall u: nat ensures start <= u < start + mem'[start].size <==> u in owner && owner[u] in labels {
      JoinedUnits(mem, base, fl, live, owner, bp, i, u);
    }
    TiledMerged(mem, mem', base, fl, fl', live, live - {bp}, owner, labels, start);
  }

  lemma JoinedMembers(mem: Memory, base: nat, fl: seq<nat>, bp: nat, i: nat, b: nat)
    requires ListOk(mem, base, fl) && Fits(mem, base, fl, bp, i)
    ensures var (fl', labels, start) := Joined(mem, fl, bp, i);
      b in fl' <==> b == start || (b in fl && b !in labels)
  {
    var (fl', labels, start) := Joined(mem, fl, bp, i);
    var up := i + 1 < |fl| && bp + mem[bp].size == fl[i + 1];
    var j := if up then i + 2 else i + 1;
    if b in fl && b !in labels {
      var k :| 0 <= k < |fl| && fl[k] == b;
      assert if k <= i then b == fl[..i + 1][k] else k >= j && b == fl[j..][k - j];
    }
    if b in fl' && b != start {
      var k :| 0 <= k < |fl'| && fl'[k] == b;
      var d := |fl'| - |fl[j..]|;
      var m := if k <= i then k else k - d + j;
      assert b == fl[m];
      Distinct(mem, base, fl, m, i);
      if up { Distinct(mem, base, fl, m, i + 1); }
    }
    assert start == bp ==> bp == fl'[i + 1];
    assert start == fl[i] ==> start == fl'[i];
  }

  lemma JoinedUnits(mem: Memory, base: nat, fl: seq<nat>, live: map<nat, nat>, owner: map<nat, nat>, bp: nat, i: nat,
                    u: nat)
    requires HeapOk(mem, base, fl, live, owner) && bp in live && Fits(mem, base, fl, bp, i)
    ensures var (fl', labels, start) := Joined(mem, fl, bp, i);
      start <= u < start + Coalesce(mem, fl[i], bp)[start].size <==> u in owner && owner[u] in labels
  {
    var up := i + 1 < |fl| && bp + mem[bp].size == fl[i + 1];
    var low := fl[i] + mem[fl[i]].size == bp;
    assert IsBlock(base, fl, live, bp) && Holds(mem, owner, bp);
    assert Linked(mem, fl, i) && Linked(mem, fl, 0);
    Distinct(mem, base, fl, 0, i);
    if i + 1 < |fl| { Distinct(mem, base, fl, 0, i + 1); }
    if low { assert IsBlock(base, fl, live, fl[i]) && Holds(mem, owner, fl[i]); }
    if up { assert IsBlock(base, fl, live, fl[i + 1]) && Holds(mem, owner, fl[i + 1]); }
    if u in owner { assert Lies(mem, base, fl, live, owner, u); }
  }

  // ----- what a caller may rely on -----

  /** Live blocks keep every unit they had, header and payload. */
  ghost predicate Untouched(mem: Memory, mem': Memory, owner: map<nat, nat>, live: map<nat, nat>) {
    forall u {:trigger u in owner} :: u in owner && owner[u] in live ==> u in mem && u in mem' && mem'[u] == mem[u]
  }

  /** Only the first unit of a block is its header: the allocator's structure does not depend on what the owner of a
      live block writes to the others. */
  lemma PayloadStored(mem: Memory, base: nat, fl: seq<nat>, live: map<nat, nat>, owner: map<nat, nat>, u: nat,
                      h: Header)
    requires HeapOk(mem, base, fl, live, owner) && u in owner && owner[u] in live && u != owner[u]
    ensures HeapOk(mem[u := h], base, fl, live, owner)
  {
    var mem' := mem[u := h];
    forall b: nat | IsBlock(base, fl, live, b) ensures b != u && Holds(mem', owner, b) {
      assert Holds(mem, owner, b) && b in owner;
    }
    assert mem'.Keys == mem.Keys && forall a :: a in live ==> IsBlock(base, fl, live, a);
    forall i | 0 <= i < |fl| ensures fl[i] != u && Linked(mem', fl, i) {
      assert Linked(mem, fl, i) && (i > 0 ==> Apart(mem, fl, 0, i));
      assert i > 0 ==> IsBlock(base, fl, live, fl[i]);
    }
    forall i, j | 0 <= i < j < |fl|
      ensures Apart(mem', fl, i, j)
    {
      assert Apart(mem, fl, i, j) && Linked(mem', fl, i);
    }
    forall v | v in owner ensures Lies(mem', base, fl, live, owner, v) { assert Lies(mem, base, fl, live, owner, v); }
  }

  lemma FreedUntouched(mem: Memory, base: nat, fl: seq<nat>, live: map<nat, nat>, owner: map<nat, nat>, bp: nat, i: nat)
    requires HeapOk(mem, base, fl, live, owner) && bp in live && Position(fl, bp, i) && fl[i] in mem
    requires mem[fl[i]].next in mem
    ensures Untouched(mem, Coalesce(mem, fl[i], bp), owner, live - {bp})
    ensures var (fl', labels, start) := Joined(mem, fl, bp, i);
      && bp in mem && bp in Relabel(owner, labels, start) && Relabel(owner, labels, start)[bp] == start && start in fl'
      && fl[i] in fl'
      && start in Coalesce(mem, fl[i], bp) && Coalesce(mem, fl[i], bp)[start].size >= mem[bp].size == live[bp]
  {
    assert IsBlock(base, fl, live, bp) && Holds(mem, owner, bp) && bp in owner;
    if i > 0 {
      Distinct(mem, base, fl, 0, i);
      assert IsBlock(base, fl, live, fl[i]) && Holds(mem, owner, fl[i]) && fl[i] in owner;
    }
    var (fl', labels, start) := Joined(mem, fl, bp, i);
    assert start == fl'[if start == bp then i + 1 else i] && fl[i] == fl'[i];
  }

  /** Every unit obtained from the system lies in exactly one block, and blocks hold nothing else. */
  lemma ExactTiling(mem: Memory, base: nat, fl: seq<nat>, live: map<nat, nat>, owner: map<nat, nat>, u: nat)
    requires HeapOk(mem, base, fl, live, owner)
    ensures u in mem && u != base <==>
      exists b: nat {:trigger IsBlock(base, fl, live, b)} ::
        IsBlock(base, fl, live, b) && b in mem && b <= u < b + mem[b].size
    ensures forall b: nat, c: nat {:trigger IsBlock(base, fl, live, b), IsBlock(base, fl, live, c)} ::
      IsBlock(base, fl, live, b) && b in mem && b <= u < b + mem[b].size ==>
        IsBlock(base, fl, live, c) && c in mem && c <= u < c + mem[c].size ==> b == c
  {
    if u in mem && u != base { assert u in owner && Lies(mem, base, fl, live, owner, u); }
    forall b: nat | IsBlock(base, fl, live, b) && b in mem && b <= u < b + mem[b].size
      ensures u in owner && owner[u] == b
    {
      assert Holds(mem, owner, b);
    }
  }

  /** Following the links visits the free blocks in ascending order and wraps exactly once, back to BASE. */
  lemma SingleWrap(mem: Memory, base: nat, fl: seq<nat>, i: nat)
    requires ListOk(mem, base, fl) && i < |fl|
    ensures fl[i] in mem && (mem[fl[i]].next <= fl[i] <==> i == |fl| - 1)
    ensures i == |fl| - 1 ==> mem[fl[i]].next == base
    ensures i < |fl| - 1 ==> fl[i] + mem[fl[i]].size < mem[fl[i]].next
  {
    assert Linked(mem, fl, i);
    if i + 1 < |fl| { assert Apart(mem, fl, i, i + 1); }
    if i > 0 { assert Apart(mem, fl, 0, i); }
  }

  /** Steps from index `k` of a circle of `n` to index `i`. */
  function Distance(n: nat, k: nat, i: nat): nat
    requires k < n && i < n
  {
    if k <= i then i - k else n - k + i
  }

  /** Every free block passed on the way from `start` round to `k` is too small. */
  ghost predicate Skipped(mem: Memory, fl: seq<nat>, start: nat, k: nat, nunits: nat)
    requires start < |fl| && k < |fl|
  {
    forall j {:trigger fl[j]} ::
      0 <= j < |fl| && j != start && (k == start || Distance(|fl|, start, j) < Distance(|fl|, start, k)) ==>
      fl[j] in mem && mem[fl[j]].size < nunits
  }

  // ----- taking a block -----

  function TakeWhole(mem: Memory, prevp: nat, p: nat): Memory
    requires prevp in mem && p in mem
  {
    mem[prevp := Header(mem[p].next, mem[prevp].size)]
  }

  function TakeTail(mem: Memory, p: nat, nunits: nat): Memory
    requires p in mem && nunits < mem[p].size && p + (mem[p].size - nunits) in mem
  {
    var b := p + (mem[p].size - nunits);
    mem[p := Header(mem[p].next, mem[p].size - nunits)][b := Header(mem[b].next, nunits)]
  }

  lemma TakenWholeOk(mem: Memory, base: nat, fl: seq<nat>, live: map<nat, nat>, owner: map<nat, nat>, k: nat)
    requires HeapOk(mem, base, fl, live, owner) && 0 < k < |fl|
    ensures fl[k] in mem && fl[k - 1] in mem && fl[k] !in live
    ensures HeapOk(TakeWhole(mem, fl[k - 1], fl[k]), base, fl[..k] + fl[k + 1..], live[fl[k] := mem[fl[k]].size], owner)
    ensures Untouched(mem, TakeWhole(mem, fl[k - 1], fl[k]), owner, live)
  {
    TakenWholeListOk(mem, base, fl, k);
    assert Linked(mem, fl, k) && Linked(mem, fl, k - 1);
    var p, mem' := fl[k], TakeWhole(mem, fl[k - 1], fl[k]);
    var fl', live' := fl[..k] + fl[k + 1..], live[p := mem[p].size];
    Distinct(mem, base, fl, 0, k);
    Distinct(mem, base, fl, 0, k - 1);
    assert IsBlock(base, fl, live, p) && Holds(mem, owner, p) && (k > 1 ==> IsBlock(base, fl, live, fl[k - 1]));
    forall b: nat ensures b in fl' <==> b in fl && b != p { WithoutMember(mem, base, fl, k, b); }
    forall u: nat ensures p <= u < p + mem[p].size <==> u in owner && owner[u] in {p} {
      if u in owner { assert Lies(mem, base, fl, live, owner, u); }
    }
    TiledMerged(mem, mem', base, fl, fl', live, live', owner, {p}, p);
    assert Relabel(owner, {p}, p) == owner;
    assert k > 1 ==> Holds(mem, owner, fl[k - 1]) && fl[k - 1] in owner;
  }

  lemma TakenWholeListOk(mem: Memory, base: nat, fl: seq<nat>, k: nat)
    requires ListOk(mem, base, fl) && 0 < k < |fl|
    ensures fl[k] in mem && fl[k - 1] in mem && ListOk(TakeWhole(mem, fl[k - 1], fl[k]), base, fl[..k] + fl[k + 1..])
  {
    assert Linked(mem, fl, k) && Linked(mem, fl, k - 1);
    assert k + 1 < |fl| ==> Apart(mem, fl, k - 1, k + 1);
    var mem' := TakeWhole(mem, fl[k - 1], fl[k]);
    forall j | 0 <= j < k - 1 || k + 1 <= j < |fl| ensures fl[j] in mem && fl[j] in mem' && mem'[fl[j]] == mem[fl[j]] {
      assert Linked(mem, fl, j);
      Distinct(mem, base, fl, j, k - 1);
    }
    ListSpliced(mem, mem', base, fl, k - 1, [], k + 1);
    assert fl[..k] + [] + fl[k + 1..] == fl[..k] + fl[k + 1..];
  }

  lemma WithoutMember(mem: Memory, base: nat, fl: seq<nat>, k: nat, b: nat)
    requires ListOk(mem, base, fl) && k < |fl|
    ensures b in fl[..k] + fl[k + 1..] <==> b in fl && b != fl[k]
  {
    var fl' := fl[..k] + fl[k + 1..];
    if b in fl && b != fl[k] {
      var j :| 0 <= j < |fl| && fl[j] == b;
      assert b == fl'[if j < k then j else j - 1];
    }
    if b in fl' {
      var j :| 0 <= j < |fl'| && fl'[j] == b;
      Distinct(mem, base, fl, if j < k then j else j + 1, k);
    }
  }

  lemma TakenTailOk(mem: Memory, base: nat, fl: seq<nat>, live: map<nat, nat>, owner: map<nat, nat>, k: nat,
                    nunits: nat)
    requires HeapOk(mem, base, fl, live, owner) && 0 < k < |fl| && fl[k] in mem && 0 < nunits < mem[fl[k]].size
    ensures var b := fl[k] + (mem[fl[k]].size - nunits);
      b in mem && b !in live && var mem' := TakeTail(mem, fl[k], nunits);
      HeapOk(mem', base, fl, live[b := nunits], Claim(owner, b, nunits)) && Untouched(mem, mem', owner, live)
  {
    var p := fl[k];
    var b := p + (mem[p].size - nunits);
    Distinct(mem, base, fl, 0, k);
    assert IsBlock(base, fl, live, p) && Holds(mem, owner, p) && b in owner && p in owner;
    var mem' := TakeTail(mem, p, nunits);
    TiledSplit(mem, mem', base, fl, live, owner, p, b);
    forall i | 0 <= i < |fl| ensures Linked(mem', fl, i) { assert Linked(mem, fl, i); Distinct(mem, base, fl, i, k); }
    forall i, j | 0 <= i < j < |fl|
      ensures Apart(mem', fl, i, j)
    {
      assert Apart(mem, fl, i, j);
      Distinct(mem, base, fl, i, k);
    }
  }

  class Heap {
    const base: nat
    var mem: Memory
    var freep: nat
    ghost var fl: seq<nat>
    ghost var live: map<nat, nat>
    ghost var owner: map<nat, nat>

    ghost predicate Valid()
      reads this
    {
      HeapOk(mem, base, fl, live, owner) && freep in fl
    }

    constructor (base: nat)
      ensures Valid() && this.base == base && live == map[] && mem.Keys == {base}
    {
      this.base := base;
      mem := map[base := Header(base, 0)];
      freep := base;
      fl, live, owner := [base], map[], map[];
      new;
      assert Linked(mem, fl, 0);
    }

    /** The search of `free`: walk from `freep` to the block after which `bp` belongs. */
    method FindPlace(bp: nat) returns (p: nat, ghost i: nat)
      requires Valid() && bp in live
      ensures Position(fl, bp, i) && p == fl[i]
      ensures p in fl && p in mem && (p < bp < mem[p].next || mem[p].next <= p < bp)
    {
      assert IsBlock(base, fl, live, bp) && Holds(mem, owner, bp) && bp in owner;
      ghost var goal := PositionExists(mem, base, fl, bp, |fl|);
      ghost var k :| 0 <= k < |fl| && fl[k] == freep;
      p := freep;
      while true
        invariant 0 <= k < |fl| && p == fl[k]
        decreases Distance(|fl|, k, goal)
      {
        SingleWrap(mem, base, fl, k);
        assert Linked(mem, fl, k);
        if bp > p && bp < mem[p].next { break; }
        if p >= mem[p].next && (bp > p || bp < mem[p].next) { break; }
        p := mem[p].next;
        k := if k + 1 < |fl| then k + 1 else 0;
      }
      i := k;
    }

    /** `free` for the block with header `bp`. */
    method Free(bp: nat)
      requires Valid() && bp in live
      modifies this`mem, this`freep, this`fl, this`live, this`owner
      ensures Valid() && live == old(live) - {bp} && mem.Keys == old(mem.Keys)
      ensures Untouched(old(mem), mem, old(owner), live)
      ensures bp in owner && owner[bp] in fl && owner[bp] in mem && mem[owner[bp]].size >= old(live)[bp]
    {
      hide HeapOk, Untouched, Relabel, Joined;
      var p;
      ghost var i;
      p, i := FindPlace(bp);
      FreedOk(mem, base, fl, live, owner, bp, i);
      FreedUntouched(mem, base, fl, live, owner, bp, i);
      ghost var (fl', labels, start) := Joined(mem, fl, bp, i);
      var next := mem[p].next;
      if bp + mem[bp].size == next {
        mem := mem[bp := Header(mem[next].next, mem[bp].size + mem[next].size)];
      } else {
        mem := mem[bp := Header(next, mem[bp].size)];
      }
      if p + mem[p].size == bp {
        mem := mem[p := Header(mem[bp].next, mem[p].size + mem[bp].size)];
      } else {
        mem := mem[p := Header(bp, mem[p].size)];
      }
      freep := p;
      assert mem == Coalesce(old(mem), p, bp);
      fl, live, owner := fl', live - {bp}, Relabel(owner, labels, start);
    }

    /** A store by the program to a unit of a block it holds, beyond the header. */
    method StorePayload(u: nat, h: Header)
      requires Valid() && u in owner && owner[u] in live && u != owner[u]
      modifies this`mem
      ensures Valid() && mem == old(mem)[u := h]
    {
      PayloadStored(mem, base, fl, live, owner, u, h);
      mem := mem[u := h];
    }

    /** The search of `malloc`: one round from the successor of `freep` back to `freep`.
        The first block that is large enough wins; without one, no free block is. */
    method FindFit(nunits: nat) returns (found: bool, prevp: nat, p: nat, ghost k: nat)
      requires Valid() && nunits > 0
      ensures found ==> 0 < k < |fl| && p == fl[k] && prevp == fl[k - 1] && p in mem && mem[p].size >= nunits
      ensures found ==>
        exists start {:trigger fl[start]} ::
          0 <= start < |fl| && fl[start] == freep && Skipped(mem, fl, start, k, nunits)
      ensures !found <==> TooSmall(mem, fl, nunits)
    {
      ghost var start :| 0 <= start < |fl| && fl[start] == freep;
      assert Linked(mem, fl, start);
      prevp := freep;
      p := mem[prevp].next;
      k := if start + 1 < |fl| then start + 1 else 0;
      while true
        invariant 0 <= k < |fl| && p == fl[k] && prevp == (if k > 0 then fl[k - 1] else fl[|fl| - 1])
        invariant Skipped(mem, fl, start, k, nunits)
        decreases Distance(|fl|, k, start)
      {
        assert Linked(mem, fl, k);
        if mem[p].size >= nunits {
          found := true;
          return;
        }
        if p == freep {
          Distinct(mem, base, fl, k, start);
          found := false;
          return;
        }
        prevp := p;
        p := mem[p].next;
        k := if k + 1 < |fl| then k + 1 else 0;
      }
    }

    /** `expand_heap`: `grown` is what `grow_break` returned for the request. */
    method ExpandHeap(nunits: nat, grown: Option<nat>) returns (ok: bool)
      requires Valid() && nunits > 0 && (grown.Some? ==> base < grown.value && forall u :: u in mem ==> u < grown.value)
      modifies this`mem, this`freep, this`fl, this`live, this`owner
      ensures Valid() && live == old(live) && Untouched(old(mem), mem, old(owner), live)
      ensures ok == grown.Some?
      ensures !ok ==> mem == old(mem) && freep == old(freep) && fl == old(fl) && owner == old(owner)
      ensures ok ==>
        forall u {:trigger u in mem} :: u in mem <==>
          u in old(mem) || grown.value <= u < grown.value + Max(nunits, 4096)
      ensures ok ==> !TooSmall(mem, fl, nunits)
    {
      hide HeapOk, Enlarge, Untouched;
      NothingTouched(mem, base, fl, live, owner);
      if grown.None? { return false; }
      var n := Max(nunits, 4096);
      var hp := grown.value;
      mem := mem + Fresh(hp, n);
      mem := mem[hp := Header(mem[hp].next, n)];
      GrownOk(old(mem), mem, base, fl, live, owner, hp, n);
      live, owner := live[hp := n], Enlarge(owner, mem, base, hp);
      ghost var grownMem := mem;
      Free(hp);
      assert live == old(live);
      GrownUntouched(old(mem), grownMem, mem, base, live, old(owner), hp);
      ok := true;
    }

    /** Carve `nunits` units out of free block `p`: all of it, or its tail end. */
    method Carve(prevp: nat, p: nat, nunits: nat, ghost k: nat) returns (b: nat)
      requires Valid() && nunits > 0 && 0 < k < |fl| && p == fl[k] && prevp == fl[k - 1] && p in mem
      requires mem[p].size >= nunits
      modifies this`mem, this`freep, this`fl, this`live, this`owner
      ensures Valid() && b !in old(live) && live == old(live)[b := nunits] && mem.Keys == old(mem.Keys)
      ensures Untouched(old(mem), mem, old(owner), old(live))
      ensures p <= b && b + nunits == p + old(mem)[p].size
    {
      hide HeapOk, Untouched, Claim;
      if mem[p].size == nunits {
        TakenWholeOk(mem, base, fl, live, owner, k);
        mem := mem[prevp := Header(mem[p].next, mem[prevp].size)];
        live := live[p := nunits];
        fl := fl[..k] + fl[k + 1..];
        assert fl[k - 1] == prevp;
        b := p;
      } else {
        TakenTailOk(mem, base, fl, live, owner, k, nunits);
        mem := mem[p := Header(mem[p].next, mem[p].size - nunits)];
        b := p + mem[p].size;
        mem := mem[b := Header(mem[b].next, nunits)];
        live, owner := live[b := nunits], Claim(owner, b, nunits);
        assert prevp in fl;
      }
      freep := prevp;
    }

    /** `malloc`: the payload address, or nothing when the system gives no more memory.
        The heap grows only when no free block is large enough, and at most once. */
    method Malloc(nbytes: nat, grown: Option<nat>) returns (r: Option<nat>)
      requires Valid() && (grown.Some? ==> base < grown.value && forall u :: u in mem ==> u < grown.value)
      modifies this`mem, this`freep, this`fl, this`live, this`owner
      ensures Valid() && Untouched(old(mem), mem, old(owner), old(live))
      ensures r.Some? ==> r.value > 0 && r.value - 1 !in old(live) && live == old(live)[r.value - 1 := UnitsFor(nbytes)]
      ensures r.None? ==> mem == old(mem) && freep == old(freep) && live == old(live) && grown.None?
      ensures r.None? <==> grown.None? && TooSmall(old(mem), old(fl), UnitsFor(nbytes))
      ensures forall u {:trigger u in mem} :: u in mem <==>
          u in old(mem) || (grown.Some? && TooSmall(old(mem), old(fl), UnitsFor(nbytes)) &&
            grown.value <= u < grown.value + Max(UnitsFor(nbytes), 4096))
    {
      hide HeapOk, Untouched;
      var nunits := UnitsFor(nbytes);
      var found, prevp, p;
      ghost var k;
      found, prevp, p, k := FindFit(nunits);
      if !found {
        ghost var mem0, fl0, owner0, live0 := mem, fl, owner, live;
        var ok := ExpandHeap(nunits, grown);
        if !ok { return None; }
        found, prevp, p, k := FindFit(nunits);
        assert found;
        ghost var mem1, fl1, owner1 := mem, fl, owner;
        var b := Carve(prevp, p, nunits, k);
        UntouchedChained(mem0, mem1, mem, base, fl0, fl1, owner0, owner1, live0);
        return Some(b + 1);
      }
      var b := Carve(prevp, p, nunits, k);
      r := Some(b + 1);
    }
  }

  /** Units for a request: the payload rounded up, and the header. */
  function UnitsFor(nbytes: nat): (n: nat)
    ensures n > 0 && nbytes <= 16 * (n - 1) < nbytes + 16
  {
    (nbytes + 15) / 16 + 1
  }

  ghost predicate TooSmall(mem: Memory, fl: seq<nat>, nunits: nat) {
    forall j {:trigger fl[j]} :: 0 <= j < |fl| ==> fl[j] in mem && mem[fl[j]].size < nunits
  }

  /** `n` units straight from the system. */
  function Fresh(a: nat, n: nat): (m: Memory)
    ensures forall u {:trigger u in m} :: u in m <==> a <= u < a + n
  {
    if n == 0 then map[] else Fresh(a, n - 1)[a + n - 1 := Header(0, 0)]
  }

  lemma NothingTouched(mem: Memory, base: nat, fl: seq<nat>, live: map<nat, nat>, owner: map<nat, nat>)
    requires HeapOk(mem, base, fl, live, owner)
    ensures Untouched(mem, mem, owner, live) && forall x :: x in fl ==> x in mem
  {
    forall i | 0 <= i < |fl| ensures fl[i] in mem { assert Linked(mem, fl, i); }
  }

  lemma UntouchedChained(mem: Memory, mem': Memory, mem'': Memory, base: nat, fl: seq<nat>, fl': seq<nat>,
                         owner: map<nat, nat>, owner': map<nat, nat>, live: map<nat, nat>)
    requires HeapOk(mem, base, fl, live, owner) && HeapOk(mem', base, fl', live, owner')
    requires Untouched(mem, mem', owner, live) && Untouched(mem', mem'', owner', live)
    ensures Untouched(mem, mem'', owner, live)
  {
    forall u | u in owner && owner[u] in live ensures u in mem && u in mem'' && mem''[u] == mem[u] {
      assert Lies(mem, base, fl, live, owner, u);
      assert IsBlock(base, fl', live, owner[u]) && Holds(mem', owner', owner[u]) && u in owner';
    }
  }

  lemma GrownUntouched(mem: Memory, mem': Memory, mem'': Memory, base: nat, live: map<nat, nat>, owner: map<nat, nat>,
                       b: nat)
    requires Untouched(mem, mem', owner, live) && Untouched(mem', mem'', Enlarge(owner, mem', base, b), live)
    requires owner.Keys <= mem'.Keys && base !in owner
    ensures Untouched(mem, mem'', owner, live)
  {
    forall u | u in owner && owner[u] in live ensures u in mem && u in mem'' && mem''[u] == mem[u] {
      assert u in Enlarge(owner, mem', base, b);
    }
  }

  lemma GrownOk(mem: Memory, mem': Memory, base: nat, fl: seq<nat>, live: map<nat, nat>, owner: map<nat, nat>, b: nat,
                n: nat)
    requires HeapOk(mem, base, fl, live, owner) && n > 0 && b > base && forall u :: u in mem ==> u < b
    requires forall u {:trigger u in mem'} :: u in mem' <==> u in mem || b <= u < b + n
    requires forall u {:trigger u in mem} :: u in mem ==> mem'[u] == mem[u]
    requires b in mem' && mem'[b].size == n
    ensures HeapOk(mem', base, fl, live[b := n], Enlarge(owner, mem', base, b)) && b !in live
    ensures Untouched(mem, mem', owner, live) && owner.Keys <= mem'.Keys && base !in owner
  {
    NothingTouched(mem, base, fl, live, owner);
    TiledGrown(mem, mem', base, fl, live, owner, b, n);
    forall i | 0 <= i < |fl| ensures Linked(mem', fl, i) { assert Linked(mem, fl, i); }
    forall i, j | 0 <= i < j < |fl| ensures Apart(mem', fl, i, j) { assert Apart(mem, fl, i, j); }
    assert IsBlock(base, fl, live, b) ==> Holds(mem, owner, b);
  }
}
