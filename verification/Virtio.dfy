/** The virtio block driver and a device that serves requests in any order: section 2.6 (Split Virtqueues) and
    section 5.2 (Block Device) of VIRTIO 1.1. */
module Virtio {
  import opened Common
  import opened Options

  const NUM: nat := 8
  const INDEX_WRAP: nat := 0x1_0000

  /** A descriptor: whether it has a successor, and which. */
  datatype Desc = Desc(hasNext: bool, next: nat)

  datatype Phase = Posted | Taken | Used | Done

  /** A request in flight, found under the first descriptor of its chain. */
  datatype Req = Req(rid: nat, d1: nat, d2: nat, phase: Phase)

  /** The driver's and the device's memory. The two `Idx` registers of each ring are 16 bits wide. */
  datatype Mem = Mem(free: seq<bool>, desc: seq<Desc>, status: seq<nat>, inProgress: seq<bool>,
                     availRing: seq<nat>, availIdx: nat, deviceIdx: nat,
                     usedRing: seq<nat>, usedIdx: nat, driverIdx: nat)

  /** What is going on, said without rings: requests by head, entries not yet consumed, and how many were ever
      consumed. `completed` holds the requests the device has served and the status it reported for each. */
  datatype Spec = Spec(live: map<nat, Req>, nextRid: nat, completed: map<nat, nat>,
                       availQ: seq<nat>, taken: nat, usedQ: seq<nat>, seen: nat)

  // ----- descriptors -----

  /** `alloc_desc`: the first free descriptor. */
  function FirstFree(free: seq<bool>): (r: Option<nat>)
    ensures r.Some? ==>
      r.value < |free| && free[r.value] && forall j {:trigger free[j]} :: 0 <= j < r.value ==> !free[j]
    ensures r.None? ==> forall j {:trigger free[j]} :: 0 <= j < |free| ==> !free[j]
    decreases |free|
  {
    if free == [] then None
    else
      var r := FirstFree(free[..|free| - 1]);
      if r.Some? then r else if free[|free| - 1] then Some(|free| - 1) else None
  }

  class Descriptors {
    var free: seq<bool>
    var desc: seq<Desc>

    constructor ()
      ensures |free| == |desc| == NUM && forall i {:trigger free[i]} :: 0 <= i < NUM ==> free[i]
    {
      free := seq(NUM, _ => true);
      desc := seq(NUM, _ => Desc(false, 0));
    }

    method AllocDesc() returns (r: Option<nat>)
      modifies this`free
      ensures r == FirstFree(old(free))
      ensures free == if r.Some? then old(free)[r.value := false] else old(free)
    {
      hide FirstFree;
      var i := 0;
      while i < |free|
        invariant 0 <= i <= |free| && free == old(free) && forall j {:trigger free[j]} :: 0 <= j < i ==> !free[j]
      {
        if free[i] {
          free := free[i := false];
          return Some(i);
        }
        i := i + 1;
      }
      r := None;
    }

    /** `free_desc`; the assertions are the precondition. */
    method FreeDesc(i: nat)
      requires |free| == |desc| == NUM && i < NUM && !free[i]
      modifies this
      ensures free == old(free)[i := true] && desc == old(desc)[i := Desc(false, 0)]
    {
      desc := desc[i := Desc(false, 0)];
      free := free[i := true];
    }

    /** `alloc3_desc`: three free descriptors, or none taken at all. */
    method Alloc3() returns (r: Option<(nat, nat, nat)>)
      requires |free| == |desc| == NUM
      requires forall i {:trigger free[i]} :: 0 <= i < NUM && free[i] ==> desc[i] == Desc(false, 0)
      modifies this
      ensures |free| == |desc| == NUM
      ensures r.Some? ==> var (a, b, c) := r.value;
        a < b < c < NUM && old(free)[a] && old(free)[b] && old(free)[c] &&
        free == old(free)[a := false][b := false][c := false] && desc == old(desc)
      ensures r.None? ==> free == old(free) && desc == old(desc) && |FreeSet(free)| < 3
    {
      var a := AllocDesc();
      if a.None? {
        NoneFree(free);
        return None;
      }
      var b := AllocDesc();
      if b.None? {
        FewFree(old(free), free, a.value, a.value);
        FreeDesc(a.value);
        return None;
      }
      var c := AllocDesc();
      if c.None? {
        FewFree(old(free), free, a.value, b.value);
        FreeDesc(a.value);
        FreeDesc(b.value);
        return None;
      }
      r := Some((a.value, b.value, c.value));
    }

    /** `free_chain` on a chain of three. */
    method FreeChain(head: nat, ghost d1: nat, ghost d2: nat)
      requires |free| == NUM && Chain(desc, head, d1, d2) && !free[head] && !free[d1] && !free[d2]
      modifies this
      ensures |free| == |desc| == NUM
      ensures free == old(free)[head := true][d1 := true][d2 := true]
      ensures desc == old(desc)[head := Desc(false, 0)][d1 := Desc(false, 0)][d2 := Desc(false, 0)]
    {
      var i, n := head, 0;
      while true
        invariant n < 3 && |free| == |desc| == NUM && i == (if n == 0 then head else if n == 1 then d1 else d2)
        invariant free ==
          if n == 0 then old(free) else if n == 1 then old(free)[head := true]
          else old(free)[head := true][d1 := true]
        invariant desc ==
          if n == 0 then old(desc) else if n == 1 then old(desc)[head := Desc(false, 0)]
          else old(desc)[head := Desc(false, 0)][d1 := Desc(false, 0)]
        decreases 3 - n
      {
        var d := desc[i];
        FreeDesc(i);
        if !d.hasNext { break; }
        i, n := d.next, n + 1;
      }
    }
  }

  ghost predicate Chain(desc: seq<Desc>, d0: nat, d1: nat, d2: nat) {
    && |desc| == NUM && d0 < NUM && d1 < NUM && d2 < NUM && d0 != d1 && d0 != d2 && d1 != d2
    && desc[d0] == Desc(true, d1) && desc[d1] == Desc(true, d2) && !desc[d2].hasNext
  }

  ghost function FreeSet(free: seq<bool>): set<nat> {
    set i: nat | i < |free| && free[i]
  }

  lemma NoneFree(free: seq<bool>)
    requires forall j {:trigger free[j]} :: 0 <= j < |free| ==> !free[j]
    ensures |FreeSet(free)| == 0
  {
    assert FreeSet(free) == {};
  }

  /** With two taken away nothing is free. */
  lemma FewFree(free: seq<bool>, free': seq<bool>, a: nat, b: nat)
    requires a < |free| && b < |free| && free' == free[a := false][b := false]
    requires forall j {:trigger free'[j]} :: 0 <= j < |free'| ==> !free'[j]
    ensures |FreeSet(free)| < 3
  {
    var both := {a, b};
    assert forall j: nat :: j < |free| && free[j] ==> j in both by {
      forall j: nat | j < |free| && free[j] ensures j in both { assert !free'[j]; }
    }
    assert FreeSet(free) <= both;
    Within(FreeSet(free), both);
  }

  // ----- driver and device, step by step -----

  datatype State = State(m: Mem, g: Spec)

  datatype Result = Ok(s: State) | Panic

  /** Each driver step is one section under the disk's lock. `Return` is the end of `read_or_write`. */
  datatype Op =
    | Submit(d0: nat, d1: nat, d2: nat)
    | DeviceTake
    | DeviceComplete(head: nat, status: nat)
    | Interrupt
    | Return(head: nat)

  ghost predicate Enabled(s: State, op: Op) {
    Shape(s.m) &&
    match op
    case Submit(d0, d1, d2) =>
      && d0 < NUM && d1 < NUM && d2 < NUM && d0 != d1 && d0 != d2 && d1 != d2
      && s.m.free[d0] && s.m.free[d1] && s.m.free[d2]
    case DeviceTake => s.m.deviceIdx != s.m.availIdx
    case DeviceComplete(h, status) => h in s.g.live && s.g.live[h].phase == Taken && status < 256
    case Interrupt => s.m.driverIdx != s.m.usedIdx
    case Return(h) => h in s.g.live && h < NUM && !s.m.inProgress[h]
  }

  /** A 16-bit register that has been incremented `n` times. */
  function Register(n: nat): (r: nat)
    ensures r < INDEX_WRAP
  {
    n % INDEX_WRAP
  }

  /** The ring slot an index register selects. */
  function Cell(idx: nat): (r: nat)
    ensures r < NUM
  {
    idx % NUM
  }

  /** `send_request` after the descriptors were allocated. */
  function SubmitMem(m: Mem, d0: nat, d1: nat, d2: nat): Mem
    requires Shape(m) && d0 < NUM && d1 < NUM && d2 < NUM
  {
    m.(free := m.free[d0 := false][d1 := false][d2 := false],
       desc := m.desc[d0 := Desc(true, d1)][d1 := Desc(true, d2)][d2 := Desc(false, 0)],
       status := m.status[d0 := 0xff], inProgress := m.inProgress[d0 := true],
       availRing := m.availRing[Cell(m.availIdx) := d0], availIdx := Register(m.availIdx + 1))
  }

  ghost function Step(s: State, op: Op): Result
    requires Inv(s) && Enabled(s, op)
  {
    match op
    case Submit(d0, d1, d2) =>
      Ok(State(SubmitMem(s.m, d0, d1, d2),
               s.g.(live := s.g.live[d0 := Req(s.g.nextRid, d1, d2, Posted)], nextRid := s.g.nextRid + 1,
                    availQ := s.g.availQ + [d0])))
    case DeviceTake =>
      AvailHead(s);
      var h := s.m.availRing[Cell(s.m.deviceIdx)];
      Ok(State(s.m.(deviceIdx := Register(s.m.deviceIdx + 1)),
               s.g.(live := s.g.live[h := s.g.live[h].(phase := Taken)], availQ := s.g.availQ[1..],
                    taken := s.g.taken + 1)))
    case DeviceComplete(h, status) =>
      LiveAt(s, h);
      Ok(State(s.m.(status := s.m.status[h := status], usedRing := s.m.usedRing[Cell(s.m.usedIdx) := h],
                    usedIdx := Register(s.m.usedIdx + 1)),
               s.g.(live := s.g.live[h := s.g.live[h].(phase := Used)],
                    completed := s.g.completed[s.g.live[h].rid := status], usedQ := s.g.usedQ + [h])))
    case Interrupt =>
      UsedHead(s);
      var h := s.m.usedRing[Cell(s.m.driverIdx)];
      if s.m.status[h] != 0 then Panic
      else
        Ok(State(s.m.(inProgress := s.m.inProgress[h := false], driverIdx := Register(s.m.driverIdx + 1)),
                 s.g.(live := s.g.live[h := s.g.live[h].(phase := Done)], usedQ := s.g.usedQ[1..],
                      seen := s.g.seen + 1)))
    case Return(h) =>
      LiveAt(s, h);
      var d1, d2 := s.g.live[h].d1, s.g.live[h].d2;
      Ok(State(s.m.(free := s.m.free[h := true][d1 := true][d2 := true],
                    desc := s.m.desc[h := Desc(false, 0)][d1 := Desc(false, 0)][d2 := Desc(false, 0)]),
               s.g.(live := s.g.live - {h})))
  }

  // ----- invariant -----

  ghost predicate Shape(m: Mem) {
    && |m.free| == |m.desc| == |m.status| == |m.inProgress| == |m.availRing| == |m.usedRing| == NUM
    && m.availIdx < INDEX_WRAP && m.deviceIdx < INDEX_WRAP && m.usedIdx < INDEX_WRAP && m.driverIdx < INDEX_WRAP
  }

  predicate Holds(h: nat, r: Req, i: nat) {
    i == h || i == r.d1 || i == r.d2
  }

  ghost predicate Queued(q: seq<nat>, h: nat) {
    exists k {:trigger q[k]} :: 0 <= k < |q| && q[k] == h
  }

  ghost predicate LiveOk(m: Mem, g: Spec, h: nat)
    requires Shape(m) && h in g.live
  {
    var r := g.live[h];
    && Chain(m.desc, h, r.d1, r.d2) && !m.free[h] && !m.free[r.d1] && !m.free[r.d2]
    && (m.inProgress[h] <==> r.phase != Done) && (r.phase.Done? ==> m.status[h] == 0)
    && r.rid < g.nextRid && (r.phase.Used? || r.phase.Done? <==> r.rid in g.completed)
    && (r.rid in g.completed ==> m.status[h] == g.completed[r.rid])
    && (r.phase.Posted? <==> Queued(g.availQ, h)) && (r.phase.Used? <==> Queued(g.usedQ, h))
  }

  ghost predicate Apart(live: map<nat, Req>, a: nat, b: nat)
    requires a in live && b in live
  {
    a != b ==>
      live[a].rid != live[b].rid && forall i {:trigger Holds(a, live[a], i)} :: Holds(a, live[a], i) ==>
        !Holds(b, live[b], i)
  }

  ghost predicate Taken1(live: map<nat, Req>, i: nat) {
    exists h {:trigger live[h]} :: h in live && Holds(h, live[h], i)
  }

  /** The ring holds the queue from `start` on, and has room for one more. */
  ghost predicate Ring(ring: seq<nat>, start: nat, q: seq<nat>) {
    |ring| == NUM && |q| < NUM && forall k {:trigger q[k]} :: 0 <= k < |q| ==> ring[Cell(start + k)] == q[k]
  }

  ghost predicate QueuesOk(m: Mem, g: Spec) {
    && Ring(m.availRing, g.taken, g.availQ) && Ring(m.usedRing, g.seen, g.usedQ) && Spread(g.availQ) && Spread(g.usedQ)
    && (forall k {:trigger g.availQ[k]} :: 0 <= k < |g.availQ| ==> g.availQ[k] in g.live)
    && (forall k {:trigger g.usedQ[k]} :: 0 <= k < |g.usedQ| ==> g.usedQ[k] in g.live)
    && m.availIdx == Register(g.taken + |g.availQ|) && m.deviceIdx == Register(g.taken)
    && m.usedIdx == Register(g.seen + |g.usedQ|) && m.driverIdx == Register(g.seen)
  }

  ghost predicate Inv(s: State) {
    && Shape(s.m) && QueuesOk(s.m, s.g)
    && (forall h {:trigger LiveOk(s.m, s.g, h)} :: h in s.g.live ==> LiveOk(s.m, s.g, h))
    && (forall a, b {:trigger Apart(s.g.live, a, b)} :: a in s.g.live && b in s.g.live ==> Apart(s.g.live, a, b))
    && (forall i: nat {:trigger s.m.free[i]} :: i < NUM ==> (s.m.free[i] <==> !Taken1(s.g.live, i)))
    && (forall rid {:trigger rid in s.g.completed} :: rid in s.g.completed ==> rid < s.g.nextRid)
  }

  lemma LiveAt(s: State, h: nat)
    requires Inv(s) && h in s.g.live
    ensures LiveOk(s.m, s.g, h) && h < NUM && s.g.live[h].d1 < NUM && s.g.live[h].d2 < NUM
  {
  }

  /** Registers are equal exactly when the queue between them is empty, in spite of the wrap. */
  lemma IndexGap(start: nat, len: nat)
    requires len < NUM
    ensures Register(start) == Register(start + len) <==> len == 0
  {
    var q := start / INDEX_WRAP;
    assert (start + len) / INDEX_WRAP == q || (start + len) / INDEX_WRAP == q + 1;
  }

  /** Counting on in the register is counting on, and the ring size divides the register's range. */
  lemma IndexStep(n: nat)
    ensures Register(Register(n) + 1) == Register(n + 1) && Cell(Register(n)) == Cell(n)
  {
    var q, r := n / INDEX_WRAP, n % INDEX_WRAP;
    Sliced(n, q, r);
  }

  lemma Sliced(n: nat, q: nat, r: nat)
    requires n == INDEX_WRAP * q + r && r < INDEX_WRAP
    ensures n % NUM == r % NUM && (r + 1) % INDEX_WRAP == (n + 1) % INDEX_WRAP
  {
    var a := r / NUM;
    assert n == NUM * (0x2000 * q + a) + r % NUM;
    assert r + 1 < INDEX_WRAP ==> n + 1 == INDEX_WRAP * q + (r + 1);
    assert r + 1 == INDEX_WRAP ==> n + 1 == INDEX_WRAP * (q + 1);
  }

  lemma AvailHead(s: State)
    requires Inv(s) && s.m.deviceIdx != s.m.availIdx
    ensures s.g.availQ != [] && s.m.availRing[Cell(s.m.deviceIdx)] == s.g.availQ[0] && s.g.availQ[0] in s.g.live
  {
    hide Register, Cell, LiveOk, Apart, Spread;
    IndexGap(s.g.taken, |s.g.availQ|);
    IndexStep(s.g.taken);
  }

  lemma UsedHead(s: State)
    requires Inv(s) && s.m.driverIdx != s.m.usedIdx
    ensures s.g.usedQ != [] && s.m.usedRing[Cell(s.m.driverIdx)] == s.g.usedQ[0] && s.g.usedQ[0] in s.g.live
    ensures s.g.usedQ[0] < NUM
  {
    hide Register, Cell, LiveOk, Apart, Spread;
    IndexGap(s.g.seen, |s.g.usedQ|);
    IndexStep(s.g.seen);
    LiveAt(s, s.g.usedQ[0]);
  }

  // ----- conservation of descriptors -----

  ghost function Cells(live: map<nat, Req>): set<nat> {
    set i | i in Range(0, NUM) && Taken1(live, i)
  }

  ghost predicate Disjoint(live: map<nat, Req>) {
    && (forall h {:trigger live[h]} :: h in live ==>
         h < NUM && live[h].d1 < NUM && live[h].d2 < NUM && h != live[h].d1 && h != live[h].d2 &&
         live[h].d1 != live[h].d2)
    && forall a, b {:trigger Apart(live, a, b)} :: a in live && b in live ==> Apart(live, a, b)
  }

  lemma {:induction false} ThreeEach(live: map<nat, Req>)
    requires Disjoint(live)
    ensures |Cells(live)| == 3 * |live|
    decreases |live|
  {
    if live == map[] {
      assert Cells(live) == {};
    } else {
      var h :| h in live;
      var rest, r := live - {h}, live[h];
      assert rest.Keys == live.Keys - {h};
      forall a, b {:trigger Apart(rest, a, b)} | a in rest && b in rest
        ensures Apart(rest, a, b)
      {
        assert Apart(live, a, b);
      }
      ThreeEach(rest);
      CellsSplit(live, h);
      hide Cells, Disjoint, Range;
      Triple(Cells(rest), h, r.d1, r.d2);
    }
  }

  lemma Triple(x: set<nat>, a: nat, b: nat, c: nat)
    requires a != b && a != c && b != c && a !in x && b !in x && c !in x
    ensures |x + {a, b, c}| == |x| + 3
  {
    assert x + {a, b, c} == x + {a} + {b} + {c};
  }

  lemma CellsSplit(live: map<nat, Req>, h: nat)
    requires Disjoint(live) && h in live
    ensures Cells(live) == Cells(live - {h}) + {h, live[h].d1, live[h].d2}
    ensures Cells(live - {h}) !! {h, live[h].d1, live[h].d2}
  {
    hide Range;
    var rest, r := live - {h}, live[h];
    forall i: nat ensures i in Cells(live) <==> i in Cells(rest) || Holds(h, r, i) {
      if i in Cells(live) {
        var a :| a in live && Holds(a, live[a], i);
        if a != h { assert a in rest && rest[a] == live[a]; }
      }
      if i in Cells(rest) {
        var a :| a in rest && Holds(a, rest[a], i);
        assert live[a] == rest[a];
      }
    }
    forall i: nat | i in Cells(rest) ensures !Holds(h, r, i) {
      var a :| a in rest && Holds(a, rest[a], i);
      assert Apart(live, a, h) && Holds(a, live[a], i);
    }
  }

  lemma LiveDisjoint(s: State)
    requires Inv(s)
    ensures Disjoint(s.g.live)
  {
    hide QueuesOk;
    forall h {:trigger s.g.live[h]} | h in s.g.live
      ensures h < NUM && s.g.live[h].d1 < NUM && s.g.live[h].d2 < NUM && h != s.g.live[h].d1 && h != s.g.live[h].d2
      ensures s.g.live[h].d1 != s.g.live[h].d2
    {
      LiveAt(s, h);
    }
  }

  /** Free descriptors and three per request in flight are all there are. */
  lemma DescriptorsConserved(s: State)
    requires Inv(s)
    ensures |FreeSet(s.m.free)| + 3 * |s.g.live| == NUM
  {
    hide QueuesOk, LiveOk, Apart;
    LiveDisjoint(s);
    ThreeEach(s.g.live);
    hide Range;
    var all, cells, free := Range(0, NUM), Cells(s.g.live), FreeSet(s.m.free);
    forall i: nat | i < NUM ensures i in free <==> i !in cells { assert s.m.free[i] <==> !Taken1(s.g.live, i); }
    Parted(all, free, cells);
  }

  lemma Parted(all: set<nat>, a: set<nat>, b: set<nat>)
    requires a <= all && b <= all && forall i :: i in all ==> (i in a <==> i !in b)
    ensures |all| == |a| + |b|
  {
    assert all == a + b && a !! b;
  }

  /** Distinct heads in flight. */
  lemma QueueBound(q: seq<nat>, live: map<nat, Req>)
    requires Spread(q) && forall k {:trigger q[k]} :: 0 <= k < |q| ==> q[k] in live
    ensures |q| <= |live|
  {
    var elems := set x | x in q;
    SpreadCount(q, elems);
    Within(elems, live.Keys);
  }

  // ----- the rings -----

  lemma CellsDiffer(start: nat, i: nat, j: nat)
    requires i < j < NUM
    ensures Cell(start + i) != Cell(start + j)
  {
    var a, b := start + i, start + j;
    assert a == NUM * (a / NUM) + Cell(a) && b == NUM * (b / NUM) + Cell(b);
  }

  /** Adding an entry overwrites none that is pending. */
  lemma RingPush(ring: seq<nat>, start: nat, q: seq<nat>, h: nat)
    requires Ring(ring, start, q) && |q| + 1 < NUM
    ensures Ring(ring[Cell(start + |q|) := h], start, q + [h])
  {
    hide Cell;
    var ring', q' := ring[Cell(start + |q|) := h], q + [h];
    forall k {:trigger q'[k]} | 0 <= k < |q'| ensures ring'[Cell(start + k)] == q'[k] {
      if k < |q| {
        CellsDiffer(start, k, |q|);
        assert q'[k] == q[k];
      }
    }
  }

  lemma RingPop(ring: seq<nat>, start: nat, q: seq<nat>)
    requires Ring(ring, start, q) && q != []
    ensures Ring(ring, start + 1, q[1..])
  {
    hide Cell;
    forall k {:trigger q[1..][k]} | 0 <= k < |q[1..]| ensures ring[Cell(start + 1 + k)] == q[1..][k] {
      assert q[1..][k] == q[k + 1];
      assert start + 1 + k == start + (k + 1);
    }
  }

  lemma QueuedPush(q: seq<nat>, h: nat, x: nat)
    ensures Queued(q + [h], x) <==> Queued(q, x) || x == h
  {
    var q' := q + [h];
    if Queued(q, x) {
      var k :| 0 <= k < |q| && q[k] == x;
      assert q'[k] == x;
    }
    assert q'[|q|] == h;
  }

  lemma QueuedPop(q: seq<nat>, x: nat)
    requires q != [] && Spread(q)
    ensures Queued(q[1..], x) <==> Queued(q, x) && x != q[0]
  {
    if Queued(q, x) && x != q[0] {
      var k :| 0 <= k < |q| && q[k] == x;
      assert q[1..][k - 1] == x;
    }
    if Queued(q[1..], x) {
      var k :| 0 <= k < |q[1..]| && q[1..][k] == x;
      assert q[k + 1] == x;
    }
  }

  lemma SpreadPush(q: seq<nat>, h: nat)
    requires Spread(q) && !Queued(q, h)
    ensures Spread(q + [h])
  {
  }

  lemma SpreadPop(q: seq<nat>)
    requires q != [] && Spread(q)
    ensures Spread(q[1..])
  {
  }

  /** At most two requests are in flight, so the rings never fill up. */
  lemma FewInFlight(s: State)
    requires Inv(s)
    ensures |s.g.live| <= 2 && |s.g.availQ| <= 2 && |s.g.usedQ| <= 2
  {
    hide LiveOk, Apart, Ring;
    DescriptorsConserved(s);
    QueueBound(s.g.availQ, s.g.live);
    QueueBound(s.g.usedQ, s.g.live);
  }

  // ----- preservation -----

  /** A request moves on without changing its chain. */
  lemma PhaseKeeps(live: map<nat, Req>, h: nat, phase: Phase)
    requires h in live && forall a, b {:trigger Apart(live, a, b)} :: a in live && b in live ==> Apart(live, a, b)
    ensures var live' := live[h := live[h].(phase := phase)];
      && (forall a, b {:trigger Apart(live', a, b)} :: a in live' && b in live' ==> Apart(live', a, b))
      && forall i {:trigger Taken1(live', i)} :: Taken1(live', i) <==> Taken1(live, i)
  {
    var live' := live[h := live[h].(phase := phase)];
    forall a, b {:trigger Apart(live', a, b)} | a in live' && b in live' ensures Apart(live', a, b) {
      assert Apart(live, a, b);
      forall i {:trigger Holds(a, live'[a], i)} | a != b && Holds(a, live'[a], i)
        ensures !Holds(b, live'[b], i)
      {
        assert Holds(a, live[a], i);
      }
    }
    forall i ensures Taken1(live', i) <==> Taken1(live, i) {
      if Taken1(live, i) {
        var a :| a in live && Holds(a, live[a], i);
        assert Holds(a, live'[a], i);
      }
      if Taken1(live', i) {
        var a :| a in live' && Holds(a, live'[a], i);
        assert Holds(a, live[a], i);
      }
    }
  }

  lemma DeviceTakeOk(s: State)
    requires Inv(s) && Enabled(s, DeviceTake)
    ensures Step(s, DeviceTake).Ok? && Inv(Step(s, DeviceTake).s)
  {
    hide Register, Cell, Ring, Spread, Apart, Taken1, Queued;
    var s' := Step(s, DeviceTake).s;
    AvailHead(s);
    var h := s.g.availQ[0];
    IndexStep(s.g.taken);
    RingPop(s.m.availRing, s.g.taken, s.g.availQ);
    SpreadPop(s.g.availQ);
    PhaseKeeps(s.g.live, h, Taken);
    forall x {:trigger LiveOk(s'.m, s'.g, x)} | x in s'.g.live ensures LiveOk(s'.m, s'.g, x) {
      assert LiveOk(s.m, s.g, x) && LiveOk(s.m, s.g, h);
      QueuedPop(s.g.availQ, x);
      FrontQueued(s.g.availQ);
    }
    assert |s'.g.availQ| == |s.g.availQ| - 1;
    assert forall k {:trigger s'.g.availQ[k]} :: 0 <= k < |s'.g.availQ| ==> s'.g.availQ[k] == s.g.availQ[k + 1];
  }

  lemma FrontQueued(q: seq<nat>)
    requires q != []
    ensures Queued(q, q[0])
  {
  }

  lemma DeviceCompleteOk(s: State, h: nat, status: nat)
    requires Inv(s) && Enabled(s, DeviceComplete(h, status))
    ensures Step(s, DeviceComplete(h, status)).Ok? && Inv(Step(s, DeviceComplete(h, status)).s)
  {
    hide Register, Cell, Ring, Spread, Taken1, Queued;
    var s' := Step(s, DeviceComplete(h, status)).s;
    FewInFlight(s);
    LiveAt(s, h);
    IndexStep(s.g.seen + |s.g.usedQ|);
    RingPush(s.m.usedRing, s.g.seen, s.g.usedQ, h);
    SpreadPush(s.g.usedQ, h);
    PhaseKeeps(s.g.live, h, Used);
    forall x {:trigger LiveOk(s'.m, s'.g, x)} | x in s'.g.live ensures LiveOk(s'.m, s'.g, x) {
      assert LiveOk(s.m, s.g, x) && Apart(s.g.live, x, h);
      QueuedPush(s.g.usedQ, h, x);
    }
    assert forall k {:trigger s'.g.usedQ[k]} ::
        0 <= k < |s'.g.usedQ| ==> s'.g.usedQ[k] == if k < |s.g.usedQ| then s.g.usedQ[k] else h;
  }

  /** The device reported an error for the oldest request in the used ring. */
  ghost predicate Refused(g: Spec) {
    && g.usedQ != [] && g.usedQ[0] in g.live && g.live[g.usedQ[0]].rid in g.completed
    && g.completed[g.live[g.usedQ[0]].rid] != 0
  }

  /** The assertion on the status byte fails exactly when the device reported an error for the request it is about:
      only served requests are in the used ring, and the byte the driver reads is the one written for that request. */
  lemma InterruptPanicsIff(s: State)
    requires Inv(s) && Enabled(s, Interrupt)
    ensures Step(s, Interrupt).Panic? <==> Refused(s.g)
  {
    hide Register, Cell, Ring, Spread, Taken1, Queued;
    UsedHead(s);
    FrontQueued(s.g.usedQ);
    LiveAt(s, s.g.usedQ[0]);
  }

  lemma InterruptOk(s: State)
    requires Inv(s) && Enabled(s, Interrupt) && !Refused(s.g)
    ensures Step(s, Interrupt).Ok? && Inv(Step(s, Interrupt).s)
  {
    hide Register, Cell, Ring, Spread, Taken1, Queued;
    UsedHead(s);
    var h := s.g.usedQ[0];
    FrontQueued(s.g.usedQ);
    LiveAt(s, h);
    var s' := Step(s, Interrupt).s;
    IndexStep(s.g.seen);
    RingPop(s.m.usedRing, s.g.seen, s.g.usedQ);
    SpreadPop(s.g.usedQ);
    PhaseKeeps(s.g.live, h, Done);
    forall x {:trigger LiveOk(s'.m, s'.g, x)} | x in s'.g.live ensures LiveOk(s'.m, s'.g, x) {
      assert LiveOk(s.m, s.g, x) && Apart(s.g.live, x, h);
      QueuedPop(s.g.usedQ, x);
    }
    assert |s'.g.usedQ| == |s.g.usedQ| - 1;
    assert forall k {:trigger s'.g.usedQ[k]} :: 0 <= k < |s'.g.usedQ| ==> s'.g.usedQ[k] == s.g.usedQ[k + 1];
  }

  /** A new chain of free descriptors shares none with the chains in flight. */
  lemma NewChain(live: map<nat, Req>, free: seq<bool>, d0: nat, r: Req, nextRid: nat)
    requires |free| == NUM && d0 < NUM && r.d1 < NUM && r.d2 < NUM && free[d0] && free[r.d1] && free[r.d2]
    requires r.rid == nextRid
    requires forall i: nat {:trigger free[i]} :: i < NUM ==> (free[i] <==> !Taken1(live, i))
    requires forall a, b {:trigger Apart(live, a, b)} :: a in live && b in live ==> Apart(live, a, b)
    requires forall h {:trigger live[h]} :: h in live ==> live[h].rid < nextRid
    ensures d0 !in live
    ensures var live', free' := live[d0 := r], free[d0 := false][r.d1 := false][r.d2 := false];
      && (forall a, b {:trigger Apart(live', a, b)} :: a in live' && b in live' ==> Apart(live', a, b))
      && forall i: nat {:trigger free'[i]} :: i < NUM ==> (free'[i] <==> !Taken1(live', i))
  {
    var live', free' := live[d0 := r], free[d0 := false][r.d1 := false][r.d2 := false];
    if d0 in live { assert Holds(d0, live[d0], d0); }
    forall a, i | a in live && Holds(a, live[a], i) ensures !Holds(d0, r, i) { assert Taken1(live, i); }
    forall a, b {:trigger Apart(live', a, b)} | a in live' && b in live' ensures Apart(live', a, b) {
      if a in live && b in live { assert Apart(live, a, b); }
      forall i {:trigger Holds(a, live'[a], i)} | a != b && Holds(a, live'[a], i) ensures !Holds(b, live'[b], i) {
        if a != d0 { assert Holds(a, live[a], i); }
        if a != d0 && b != d0 { assert Apart(live, a, b); }
      }
    }
    forall i: nat {:trigger free'[i]} | i < NUM ensures free'[i] <==> !Taken1(live', i) {
      assert Taken1(live', i) <==> Taken1(live, i) || Holds(d0, r, i) by {
        if Taken1(live, i) {
          var a :| a in live && Holds(a, live[a], i);
          assert Holds(a, live'[a], i);
        }
        if Holds(d0, r, i) { assert Holds(d0, live'[d0], i); }
        if Taken1(live', i) {
          var a :| a in live' && Holds(a, live'[a], i);
          if a != d0 { assert Holds(a, live[a], i); }
        }
      }
      assert free[i] <==> !Taken1(live, i);
    }
  }

  lemma SubmitLive(s: State, d0: nat, d1: nat, d2: nat, x: nat)
    requires Inv(s) && Enabled(s, Submit(d0, d1, d2)) && (x in s.g.live || x == d0) && d0 !in s.g.live
    ensures var s' := Step(s, Submit(d0, d1, d2)).s; LiveOk(s'.m, s'.g, x)
  {
    hide Register, Cell, Ring, Spread, Apart, Taken1, Queued;
    NotQueued(s, d0);
    QueuedPush(s.g.availQ, d0, x);
    if x != d0 { assert LiveOk(s.m, s.g, x); }
  }

  lemma SubmitOk(s: State, d0: nat, d1: nat, d2: nat)
    requires Inv(s) && Enabled(s, Submit(d0, d1, d2))
    ensures Step(s, Submit(d0, d1, d2)).Ok? && Inv(Step(s, Submit(d0, d1, d2)).s)
  {
    hide Register, Cell, Ring, Spread, Apart, Taken1, Queued;
    var s' := Step(s, Submit(d0, d1, d2)).s;
    FewInFlight(s);
    IndexStep(s.g.taken + |s.g.availQ|);
    RingPush(s.m.availRing, s.g.taken, s.g.availQ, d0);
    forall h {:trigger s.g.live[h]} | h in s.g.live ensures s.g.live[h].rid < s.g.nextRid { LiveAt(s, h); }
    NewChain(s.g.live, s.m.free, d0, Req(s.g.nextRid, d1, d2, Posted), s.g.nextRid);
    NotQueued(s, d0);
    SpreadPush(s.g.availQ, d0);
    forall x {:trigger LiveOk(s'.m, s'.g, x)} | x in s'.g.live
      ensures LiveOk(s'.m, s'.g, x)
    {
      SubmitLive(s, d0, d1, d2, x);
    }
    hide LiveOk;
    assert forall k {:trigger s'.g.availQ[k]} ::
        0 <= k < |s'.g.availQ| ==> s'.g.availQ[k] == if k < |s.g.availQ| then s.g.availQ[k] else d0;
  }

  lemma NotQueued(s: State, h: nat)
    requires Inv(s) && h !in s.g.live
    ensures !Queued(s.g.availQ, h) && !Queued(s.g.usedQ, h)
  {
    hide LiveOk, Apart, Ring, Spread;
  }

  lemma ChainGone(live: map<nat, Req>, free: seq<bool>, h: nat)
    requires |free| == NUM && Disjoint(live) && h in live
    requires forall i: nat {:trigger free[i]} :: i < NUM ==> (free[i] <==> !Taken1(live, i))
    ensures var live', free' := live - {h}, free[h := true][live[h].d1 := true][live[h].d2 := true];
      && (forall a, b {:trigger Apart(live', a, b)} :: a in live' && b in live' ==> Apart(live', a, b))
      && forall i: nat {:trigger free'[i]} :: i < NUM ==> (free'[i] <==> !Taken1(live', i))
  {
    var live', r := live - {h}, live[h];
    var free' := free[h := true][r.d1 := true][r.d2 := true];
    forall a, b {:trigger Apart(live', a, b)} | a in live' && b in live'
      ensures Apart(live', a, b)
    {
      assert Apart(live, a, b);
    }
    forall i: nat {:trigger free'[i]} | i < NUM ensures free'[i] <==> !Taken1(live', i) {
      assert Taken1(live', i) <==> Taken1(live, i) && !Holds(h, r, i) by {
        if Taken1(live, i) && !Holds(h, r, i) {
          var a :| a in live && Holds(a, live[a], i);
          assert Holds(a, live'[a], i);
        }
        if Taken1(live', i) {
          var a :| a in live' && Holds(a, live'[a], i);
          assert Holds(a, live[a], i) && Apart(live, a, h);
        }
      }
      assert free[i] <==> !Taken1(live, i);
    }
  }

  lemma ReturnOk(s: State, h: nat)
    requires Inv(s) && Enabled(s, Return(h))
    ensures Step(s, Return(h)).Ok? && Inv(Step(s, Return(h)).s)
  {
    hide Register, Cell, Ring, Spread, Taken1, Queued;
    var s' := Step(s, Return(h)).s;
    LiveAt(s, h);
    LiveDisjoint(s);
    ChainGone(s.g.live, s.m.free, h);
    forall x {:trigger LiveOk(s'.m, s'.g, x)} | x in s'.g.live ensures LiveOk(s'.m, s'.g, x) {
      assert LiveOk(s.m, s.g, x) && Apart(s.g.live, x, h);
      assert Holds(x, s.g.live[x], x) && Holds(x, s.g.live[x], s.g.live[x].d1) && Holds(x, s.g.live[x], s.g.live[x].d2);
    }
    NotWaiting(s, h);
  }

  lemma NotWaiting(s: State, h: nat)
    requires Inv(s) && h in s.g.live && s.g.live[h].phase.Done?
    ensures forall k {:trigger s.g.availQ[k]} :: 0 <= k < |s.g.availQ| ==> s.g.availQ[k] != h
    ensures forall k {:trigger s.g.usedQ[k]} :: 0 <= k < |s.g.usedQ| ==> s.g.usedQ[k] != h
  {
    LiveAt(s, h);
    hide Ring, Spread, Apart;
  }

  /** Every step keeps the invariant, and only the interrupt of a refused request fails. */
  lemma StepOk(s: State, op: Op)
    requires Inv(s) && Enabled(s, op)
    ensures Step(s, op).Panic? <==> op.Interrupt? && Refused(s.g)
    ensures Step(s, op).Ok? ==> Inv(Step(s, op).s)
  {
    hide Inv, Refused;
    match op
    case Submit(d0, d1, d2) => SubmitOk(s, d0, d1, d2);
    case DeviceTake => DeviceTakeOk(s);
    case DeviceComplete(h, status) => DeviceCompleteOk(s, h, status);
    case Interrupt =>
      InterruptPanicsIff(s);
      if !Refused(s.g) { InterruptOk(s); }
    case Return(h) => ReturnOk(s, h);
  }

  // ----- whole runs -----

  /** Each step is possible where it is taken; nothing follows a failed assertion. */
  ghost predicate EnabledRun(s: State, ops: seq<Op>)
    requires Inv(s)
    decreases |ops|
  {
    ops == [] ||
    (Enabled(s, ops[0]) &&
     (Step(s, ops[0]).Ok? ==> (StepOk(s, ops[0]); EnabledRun(Step(s, ops[0]).s, ops[1..]))))
  }

  ghost function Run(s: State, ops: seq<Op>): Result
    requires Inv(s) && EnabledRun(s, ops)
    decreases |ops|
  {
    if ops == [] then Ok(s)
    else
      match Step(s, ops[0])
      case Panic => Panic
      case Ok(s') => StepOk(s, ops[0]); Run(s', ops[1..])
  }

  /** However driver and device interleave, however often the indices wrap and whatever the device reports, a run
      that gets to its end has kept the invariant and the descriptors. */
  lemma {:induction false} RunKeeps(s: State, ops: seq<Op>)
    requires Inv(s) && EnabledRun(s, ops)
    ensures Run(s, ops).Ok? ==> Inv(Run(s, ops).s)
    ensures Run(s, ops).Ok? ==> |FreeSet(Run(s, ops).s.m.free)| + 3 * |Run(s, ops).s.g.live| == NUM
    decreases |ops|
  {
    hide Inv, Step, Enabled, Refused;
    if ops == [] {
      DescriptorsConserved(s);
    } else {
      StepOk(s, ops[0]);
      if Step(s, ops[0]).Ok? { RunKeeps(Step(s, ops[0]).s, ops[1..]); }
    }
  }

  /** The first `k` steps succeed and the next is the interrupt of a refused request. */
  ghost predicate FailsAt(s: State, ops: seq<Op>, k: nat)
    requires Inv(s)
    decreases k
  {
    k < |ops| && Enabled(s, ops[0]) &&
    if k == 0 then ops[0].Interrupt? && Refused(s.g)
    else Step(s, ops[0]).Ok? && (StepOk(s, ops[0]); FailsAt(Step(s, ops[0]).s, ops[1..], k - 1))
  }

  lemma {:induction false} FailsThere(s: State, ops: seq<Op>, k: nat)
    requires Inv(s) && EnabledRun(s, ops) && FailsAt(s, ops, k)
    ensures Run(s, ops).Panic?
    decreases k
  {
    hide Inv, Step, Enabled, Refused;
    StepOk(s, ops[0]);
    if k > 0 { FailsThere(Step(s, ops[0]).s, ops[1..], k - 1); }
  }

  lemma {:induction false} FailsSomewhere(s: State, ops: seq<Op>) returns (k: nat)
    requires Inv(s) && EnabledRun(s, ops) && Run(s, ops).Panic?
    ensures FailsAt(s, ops, k)
    decreases |ops|
  {
    hide Inv, Step, Enabled, Refused;
    StepOk(s, ops[0]);
    if Step(s, ops[0]).Panic? {
      k := 0;
    } else {
      k := FailsSomewhere(Step(s, ops[0]).s, ops[1..]);
      k := k + 1;
    }
  }

  /** A run fails exactly when, somewhere on the way, the driver handles a request refused by the device. */
  lemma RunPanicsIff(s: State, ops: seq<Op>)
    requires Inv(s) && EnabledRun(s, ops)
    ensures Run(s, ops).Panic? <==> exists k: nat :: FailsAt(s, ops, k)
  {
    hide Inv, EnabledRun, Run, FailsAt;
    if k: nat :| FailsAt(s, ops, k) { FailsThere(s, ops, k); }
    if Run(s, ops).Panic? { var k := FailsSomewhere(s, ops); }
  }

  /** The device reports success for everything it serves. */
  ghost predicate Reliable(ops: seq<Op>) {
    forall i {:trigger ops[i]} :: 0 <= i < |ops| && ops[i].DeviceComplete? ==> ops[i].status == 0
  }

  ghost predicate NoErrors(g: Spec) {
    forall rid {:trigger rid in g.completed} :: rid in g.completed ==> g.completed[rid] == 0
  }

  /** With such a device no interleaving of driver and device fails an assertion. */
  lemma {:induction false} RunOk(s: State, ops: seq<Op>)
    requires Inv(s) && EnabledRun(s, ops) && Reliable(ops) && NoErrors(s.g)
    ensures Run(s, ops).Ok?
    decreases |ops|
  {
    hide Inv, Enabled;
    if ops != [] {
      StepOk(s, ops[0]);
      var s', rest := Step(s, ops[0]).s, ops[1..];
      assert NoErrors(s'.g);
      hide Step;
      assert Reliable(rest) by {
        forall i {:trigger rest[i]} | 0 <= i < |rest| && rest[i].DeviceComplete? ensures rest[i].status == 0 {
          assert ops[i + 1] == rest[i];
        }
      }
      RunOk(s', rest);
    }
  }

  // ----- what a step does -----

  /** The oldest request in the used ring is done and can return; it has left the ring, and every other request is as
      before. */
  lemma InterruptFinishes(s: State)
    requires Inv(s) && Enabled(s, Interrupt) && !Refused(s.g)
    ensures s.g.usedQ != [] && s.g.usedQ[0] in s.g.live && s.g.usedQ[0] < NUM && Step(s, Interrupt).Ok?
    ensures var h, s' := s.g.usedQ[0], Step(s, Interrupt).s;
      && s'.g.live.Keys == s.g.live.Keys && s'.g.live[h] == s.g.live[h].(phase := Done) && Enabled(s', Return(h))
      && s'.g.usedQ == s.g.usedQ[1..] && s'.m.driverIdx == (s.m.driverIdx + 1) % 0x1_0000
      && (forall g {:trigger s'.g.live[g]} :: g in s.g.live && g != h ==> s'.g.live[g] == s.g.live[g])
      && (forall i {:trigger s'.m.inProgress[i]} :: 0 <= i < NUM ==>
           s'.m.inProgress[i] == (s.m.inProgress[i] && i != h))
      && s'.m == s.m.(inProgress := s'.m.inProgress, driverIdx := s'.m.driverIdx)
      && s'.g.availQ == s.g.availQ && s'.g.completed == s.g.completed && s'.g.nextRid == s.g.nextRid
  {
    hide Cell, Ring, Spread, Taken1, Queued, Apart;
    UsedHead(s);
    FrontQueued(s.g.usedQ);
    LiveAt(s, s.g.usedQ[0]);
  }

  /** The request is gone and its three descriptors are free; no other request and no other descriptor changes. */
  lemma ReturnFrees(s: State, h: nat)
    requires Inv(s) && Enabled(s, Return(h))
    ensures Step(s, Return(h)).Ok?
    ensures var r, s' := s.g.live[h], Step(s, Return(h)).s;
      && s'.g == s.g.(live := s'.g.live) && s'.g.live.Keys == s.g.live.Keys - {h}
      && (forall g {:trigger s'.g.live[g]} :: g in s'.g.live ==> s'.g.live[g] == s.g.live[g])
      && Shape(s'.m) && s'.m == s.m.(free := s'.m.free, desc := s'.m.desc)
      && (forall i {:trigger s'.m.free[i]} :: 0 <= i < NUM ==>
           (s'.m.free[i] <==> s.m.free[i] || i == h || i == r.d1 || i == r.d2))
      && (forall i {:trigger s'.m.desc[i]} :: 0 <= i < NUM ==>
           s'.m.desc[i] == if i == h || i == r.d1 || i == r.d2 then Desc(false, 0) else s.m.desc[i])
  {
    hide QueuesOk, Taken1, Queued, Apart;
    LiveAt(s, h);
  }

  /** The descriptors are taken and linked, and the device finds the new request behind those posted before. */
  lemma SubmitPosts(s: State, d0: nat, d1: nat, d2: nat)
    requires Inv(s) && Enabled(s, Submit(d0, d1, d2))
    ensures Step(s, Submit(d0, d1, d2)).Ok? && d0 !in s.g.live
    ensures var s' := Step(s, Submit(d0, d1, d2)).s;
      && s'.g.live.Keys == s.g.live.Keys + {d0} && s'.g.live[d0] == Req(s.g.nextRid, d1, d2, Posted)
      && (forall g {:trigger s'.g.live[g]} :: g in s.g.live ==> s'.g.live[g] == s.g.live[g])
      && Shape(s'.m) && Chain(s'.m.desc, d0, d1, d2) && s'.m.inProgress[d0] && s'.m.status[d0] == 0xff
      && s'.m.availRing[s.m.availIdx % NUM] == d0 && s'.m.availIdx == (s.m.availIdx + 1) % 0x1_0000
      && s'.g.availQ == s.g.availQ + [d0] && s'.g.usedQ == s.g.usedQ
      && (forall i {:trigger s'.m.free[i]} :: 0 <= i < NUM ==>
           (s'.m.free[i] <==> s.m.free[i] && i != d0 && i != d1 && i != d2))
  {
    hide QueuesOk, LiveOk, Apart, Queued;
    assert d0 in s.g.live ==> Holds(d0, s.g.live[d0], d0) && Taken1(s.g.live, d0);
  }

  /** Every request in the used ring was served with success. */
  ghost predicate AllServed(g: Spec) {
    forall k {:trigger g.usedQ[k]} :: 0 <= k < |g.usedQ| ==>
      g.usedQ[k] in g.live && g.live[g.usedQ[k]].rid in g.completed && g.completed[g.live[g.usedQ[k]].rid] == 0
  }

  function Interrupts(n: nat): seq<Op> {
    if n == 0 then [] else [Interrupt] + Interrupts(n - 1)
  }

  lemma PendingInterrupt(s: State)
    requires Inv(s) && s.g.usedQ != []
    ensures Enabled(s, Interrupt)
  {
    hide LiveOk, Apart, Register, Cell;
    IndexGap(s.g.seen, |s.g.usedQ|);
  }

  /** Whatever the interleaving before: when the driver has handled as many interrupts as requests are pending, none is
      pending and each of them can return. */
  lemma {:induction false} InterruptsDrain(s: State, h: nat)
    requires Inv(s) && AllServed(s.g)
    ensures EnabledRun(s, Interrupts(|s.g.usedQ|)) && Run(s, Interrupts(|s.g.usedQ|)).Ok?
    ensures var t := Run(s, Interrupts(|s.g.usedQ|)).s;
      && Inv(t) && t.g.usedQ == [] && t.g.live.Keys == s.g.live.Keys
      && (h in s.g.usedQ || Enabled(s, Return(h)) ==> Enabled(t, Return(h)))
    decreases |s.g.usedQ|
  {
    hide Inv, Step;
    if s.g.usedQ != [] {
      PendingInterrupt(s);
      assert s.g.usedQ[0] in s.g.live;
      InterruptOk(s);
      InterruptFinishes(s);
      var s' := Step(s, Interrupt).s;
      assert AllServed(s'.g) by {
        forall k {:trigger s'.g.usedQ[k]} | 0 <= k < |s'.g.usedQ|
          ensures s'.g.usedQ[k] in s'.g.live && s'.g.live[s'.g.usedQ[k]].rid in s'.g.completed
          ensures s'.g.completed[s'.g.live[s'.g.usedQ[k]].rid] == 0
        {
          assert s'.g.usedQ[k] == s.g.usedQ[k + 1];
        }
      }
      InterruptsDrain(s', h);
      assert Interrupts(|s.g.usedQ|) == [Interrupt] + Interrupts(|s'.g.usedQ|);
      hide EnabledRun, Run, Interrupts;
      RunStep(s, Interrupt, s', Interrupts(|s'.g.usedQ|));
      assert s.g.usedQ == [s.g.usedQ[0]] + s'.g.usedQ;
    }
  }

  // ----- what the operations alone tell -----

  datatype Kind = Submits | Takes | Completes | Handles | Returns

  function KindOf(op: Op): Kind {
    match op
    case Submit(_, _, _) => Submits
    case DeviceTake => Takes
    case DeviceComplete(_, _) => Completes
    case Interrupt => Handles
    case Return(_) => Returns
  }

  function Count(ops: seq<Op>, kind: Kind): nat
    decreases |ops|
  {
    if ops == [] then 0 else (if KindOf(ops[0]) == kind then 1 else 0) + Count(ops[1..], kind)
  }

  /** The status the device has reported for request `rid` in the course of `ops`. */
  ghost function Reported(s: State, ops: seq<Op>, rid: nat, now: Option<nat>): Option<nat>
    requires Inv(s) && EnabledRun(s, ops) && Run(s, ops).Ok?
    decreases |ops|
  {
    if ops == [] then now
    else
      StepOk(s, ops[0]);
      Reported(Step(s, ops[0]).s, ops[1..], rid, ReportedBy(s, ops[0], rid, now))
  }

  ghost function ReportedBy(s: State, op: Op, rid: nat, now: Option<nat>): Option<nat>
    requires Enabled(s, op)
  {
    if op.DeviceComplete? && s.g.live[op.head].rid == rid then Some(op.status) else now
  }

  ghost function Known(completed: map<nat, nat>, rid: nat): Option<nat> {
    if rid in completed then Some(completed[rid]) else None
  }

  /** Indices, queues and requests in flight moved by as much as there were steps of each kind. */
  ghost predicate Advanced(s: State, ops: seq<Op>, t: State) {
    && t.g.nextRid == s.g.nextRid + Count(ops, Submits)
    && t.m.availIdx == (s.m.availIdx + Count(ops, Submits)) % 0x1_0000
    && t.m.deviceIdx == (s.m.deviceIdx + Count(ops, Takes)) % 0x1_0000
    && t.m.usedIdx == (s.m.usedIdx + Count(ops, Completes)) % 0x1_0000
    && t.m.driverIdx == (s.m.driverIdx + Count(ops, Handles)) % 0x1_0000
    && |t.g.live| + Count(ops, Returns) == |s.g.live| + Count(ops, Submits)
    && |t.g.availQ| + Count(ops, Takes) == |s.g.availQ| + Count(ops, Submits)
    && |t.g.usedQ| + Count(ops, Handles) == |s.g.usedQ| + Count(ops, Completes)
  }

  function One(op: Op, kind: Kind): nat {
    if KindOf(op) == kind then 1 else 0
  }

  lemma IndicesAdvance(s: State, op: Op)
    requires Inv(s) && Enabled(s, op) && Step(s, op).Ok?
    ensures var t := Step(s, op).s;
      && t.g.nextRid == s.g.nextRid + One(op, Submits)
      && t.m.availIdx == (s.m.availIdx + One(op, Submits)) % 0x1_0000
      && t.m.deviceIdx == (s.m.deviceIdx + One(op, Takes)) % 0x1_0000
      && t.m.usedIdx == (s.m.usedIdx + One(op, Completes)) % 0x1_0000
      && t.m.driverIdx == (s.m.driverIdx + One(op, Handles)) % 0x1_0000
  {
    hide Inv, Cell;
    if op.DeviceComplete? || op.Return? { LiveAt(s, op.head); }
  }

  lemma QueuesAdvance(s: State, op: Op)
    requires Inv(s) && Enabled(s, op) && Step(s, op).Ok?
    ensures var t := Step(s, op).s;
      && |t.g.live| + One(op, Returns) == |s.g.live| + One(op, Submits)
      && |t.g.availQ| + One(op, Takes) == |s.g.availQ| + One(op, Submits)
      && |t.g.usedQ| + One(op, Handles) == |s.g.usedQ| + One(op, Completes)
  {
    hide Inv, Register, Cell;
    match op
    case Submit(d0, d1, d2) => SubmitPosts(s, d0, d1, d2);
    case DeviceTake => AvailHead(s);
    case DeviceComplete(h, status) => LiveAt(s, h);
    case Interrupt => UsedHead(s);
    case Return(h) =>
      LiveAt(s, h);
      assert (s.g.live - {h}).Keys == s.g.live.Keys - {h};
  }

  lemma StatusKnown(s: State, op: Op, rid: nat)
    requires Inv(s) && Enabled(s, op) && Step(s, op).Ok?
    ensures Known(Step(s, op).s.g.completed, rid) == ReportedBy(s, op, rid, Known(s.g.completed, rid))
  {
    hide Inv, Register, Cell;
    if op.DeviceComplete? || op.Return? { LiveAt(s, op.head); }
  }

  lemma StepAdvances(s: State, op: Op)
    requires Inv(s) && Enabled(s, op) && Step(s, op).Ok?
    ensures Advanced(s, [op], Step(s, op).s)
  {
    hide Inv, Step, KindOf;
    IndicesAdvance(s, op);
    QueuesAdvance(s, op);
    assert [op][1..] == [] && forall k {:trigger Count([op], k)} :: Count([op], k) == One(op, k);
  }

  /** In every run that gets to its end, and however often the indices wrap, each index has moved by the number of steps
      of its kind, what is queued and what is in flight are the differences, and what is known of a request is the
      status the device reported for it. */
  lemma {:induction false} OperationsTell(s: State, ops: seq<Op>, rid: nat)
    requires Inv(s) && EnabledRun(s, ops) && Run(s, ops).Ok?
    ensures Advanced(s, ops, Run(s, ops).s)
    ensures Known(Run(s, ops).s.g.completed, rid) == Reported(s, ops, rid, Known(s.g.completed, rid))
    decreases |ops|
  {
    hide Inv, Step, Enabled, Refused, Known;
    if ops == [] {
      Unmoved(s);
    } else {
      var s' := Step(s, ops[0]).s;
      StepOk(s, ops[0]);
      StepAdvances(s, ops[0]);
      StatusKnown(s, ops[0], rid);
      OperationsTell(s', ops[1..], rid);
      Joined(s, ops, s', Run(s, ops).s);
    }
  }

  lemma Unmoved(s: State)
    requires Inv(s)
    ensures Advanced(s, [], s)
  {
    hide LiveOk, Apart, QueuesOk;
  }

  lemma Joined(s: State, ops: seq<Op>, s': State, t: State)
    requires ops != [] && Advanced(s, [ops[0]], s') && Advanced(s', ops[1..], t)
    ensures Advanced(s, ops, t)
  {
    var a, b := [ops[0]], ops[1..];
    assert a[1..] == [];
    forall k: Kind ensures Count(ops, k) == Count(a, k) + Count(b, k) {}
    Wraps(s.m.availIdx, Count(a, Submits), Count(b, Submits));
    Wraps(s.m.deviceIdx, Count(a, Takes), Count(b, Takes));
    Wraps(s.m.usedIdx, Count(a, Completes), Count(b, Completes));
    Wraps(s.m.driverIdx, Count(a, Handles), Count(b, Handles));
  }

  lemma Wraps(n: nat, a: nat, b: nat)
    ensures ((n + a) % 0x1_0000 + b) % 0x1_0000 == (n + a + b) % 0x1_0000
  {
    var q := (n + a) / 0x1_0000;
    var r := (n + a) % 0x1_0000;
    Shift(r + b, q);
  }

  lemma Shift(x: nat, q: nat)
    ensures (x + 0x1_0000 * q) % 0x1_0000 == x % 0x1_0000
  {
    var k := x / 0x1_0000;
    assert x + 0x1_0000 * q == 0x1_0000 * (k + q) + x % 0x1_0000;
  }

  /** The requests posted and not taken are the last ones submitted, in order. */
  ghost predicate InOrder(g: Spec) {
    forall k {:trigger g.availQ[k]} :: 0 <= k < |g.availQ| ==>
      g.availQ[k] in g.live && g.live[g.availQ[k]].rid + |g.availQ| == g.nextRid + k
  }

  lemma OrderKept(s: State, op: Op)
    requires Inv(s) && InOrder(s.g) && Enabled(s, op) && Step(s, op).Ok?
    ensures InOrder(Step(s, op).s.g)
  {
    hide LiveOk, Apart, Cell, Ring, Spread, Register, Queued;
    var g, g' := s.g, Step(s, op).s.g;
    match op
    case Submit(d0, d1, d2) =>
      SubmitPosts(s, d0, d1, d2);
      assert forall k {:trigger g'.availQ[k]} ::
          0 <= k < |g'.availQ| ==> g'.availQ[k] == if k < |g.availQ| then g.availQ[k] else d0;
    case DeviceTake =>
      AvailHead(s);
      assert forall k {:trigger g'.availQ[k]} :: 0 <= k < |g'.availQ| ==> g'.availQ[k] == g.availQ[k + 1];
    case DeviceComplete(h, status) => LiveAt(s, h);
    case Interrupt =>
      InterruptPanicsIff(s);
      InterruptFinishes(s);
    case Return(h) =>
      ReturnsAfterCompletion(s, h);
      NotWaiting(s, h);
  }

  lemma {:induction false} OrderRun(s: State, ops: seq<Op>)
    requires Inv(s) && InOrder(s.g) && EnabledRun(s, ops) && Run(s, ops).Ok?
    ensures Inv(Run(s, ops).s) && InOrder(Run(s, ops).s.g)
    decreases |ops|
  {
    hide Inv, Step, Enabled, Refused, InOrder;
    if ops != [] {
      StepOk(s, ops[0]);
      OrderKept(s, ops[0]);
      OrderRun(Step(s, ops[0]).s, ops[1..]);
    }
  }

  /** The device takes the requests in the order of their submission: after any run the next one it finds in the ring is
      the one submitted when as many had been submitted as it has taken. */
  lemma TakenInOrder(s: State, ops: seq<Op>)
    requires Start(s) && Inv(s) && EnabledRun(s, ops) && Run(s, ops).Ok? && Enabled(Run(s, ops).s, DeviceTake)
    ensures var t := Run(s, ops).s;
      && Shape(t.m) && t.m.availRing[t.m.deviceIdx % NUM] in t.g.live
      && t.g.live[t.m.availRing[t.m.deviceIdx % NUM]].rid == s.g.nextRid + Count(ops, Takes)
  {
    hide EnabledRun, Run, Count, Inv;
    OrderRun(s, ops);
    OperationsTell(s, ops, 0);
    AvailHead(Run(s, ops).s);
  }

  /** A request returns only after the device has served that very request. */
  lemma ReturnsAfterCompletion(s: State, h: nat)
    requires Inv(s) && Enabled(s, Return(h))
    ensures s.g.live[h].phase == Done && s.g.live[h].rid in s.g.completed && s.g.completed[s.g.live[h].rid] == 0
  {
    LiveAt(s, h);
  }

  /** The device serves each request once. */
  lemma ServedOnce(s: State, h: nat, status: nat)
    requires Inv(s) && Enabled(s, DeviceComplete(h, status))
    ensures s.g.live[h].rid !in s.g.completed
  {
    LiveAt(s, h);
  }

  /** What the device finds in the ring is a request that was posted and not taken before, in the order of posting. */
  lemma DeviceTakesOldest(s: State)
    requires Inv(s) && Enabled(s, DeviceTake)
    ensures s.g.availQ != [] && s.m.availRing[Cell(s.m.deviceIdx)] == s.g.availQ[0]
    ensures s.g.availQ[0] in s.g.live && s.g.live[s.g.availQ[0]].phase == Posted
  {
    AvailHead(s);
    LiveAt(s, s.g.availQ[0]);
    FrontQueued(s.g.availQ);
  }

  /** The state after `init`. */
  ghost predicate Start(s: State) {
    && Shape(s.m) && s.g.live == map[] && s.g.completed == map[] && s.g.availQ == [] && s.g.usedQ == []
    && (forall i {:trigger s.m.free[i]} :: 0 <= i < NUM ==> s.m.free[i])
    && s.m.availIdx == s.m.deviceIdx == Register(s.g.taken) && s.m.usedIdx == s.m.driverIdx == Register(s.g.seen)
  }

  lemma StartOk(s: State)
    requires Start(s)
    ensures Inv(s) && NoErrors(s.g)
  {
  }

  lemma RunStep(s: State, op: Op, s': State, rest: seq<Op>)
    requires Inv(s) && Enabled(s, op) && Step(s, op) == Ok(s') && Inv(s') && EnabledRun(s', rest)
    ensures EnabledRun(s, [op] + rest) && Run(s, [op] + rest) == Run(s', rest)
  {
    hide Inv, Step, Enabled;
    assert ([op] + rest)[1..] == rest;
  }

  /** One request that the device refuses: from any start, the driver's assertion fails. */
  lemma ErrorStatusPanics(s: State, status: nat)
    requires Start(s) && 0 < status < 256
    ensures var ops := [Submit(0, 1, 2), DeviceTake, DeviceComplete(0, status), Interrupt];
      Inv(s) && EnabledRun(s, ops) && Run(s, ops).Panic?
  {
    hide Inv, Register, Cell;
    StartOk(s);
    var s1, s2 := OneTaken(s);
    assert Enabled(s2, DeviceComplete(0, status));
    DeviceCompleteOk(s2, 0, status);
    var s3 := Step(s2, DeviceComplete(0, status)).s;
    assert Refused(s3.g);
    IndexGap(s2.g.seen, 1);
    IndexStep(s2.g.seen);
    InterruptPanicsIff(s3);
    hide Step, Enabled, Start;
    assert EnabledRun(s3, [Interrupt]) && Run(s3, [Interrupt]).Panic?;
    RunStep(s2, DeviceComplete(0, status), s3, [Interrupt]);
    RunStep(s1, DeviceTake, s2, [DeviceComplete(0, status), Interrupt]);
    RunStep(s, Submit(0, 1, 2), s1, [DeviceTake, DeviceComplete(0, status), Interrupt]);
    assert [Submit(0, 1, 2)] + [DeviceTake, DeviceComplete(0, status), Interrupt]
        == [Submit(0, 1, 2), DeviceTake, DeviceComplete(0, status), Interrupt];
    assert [DeviceTake] + [DeviceComplete(0, status), Interrupt] == [DeviceTake, DeviceComplete(0, status), Interrupt];
    assert [DeviceComplete(0, status)] + [Interrupt] == [DeviceComplete(0, status), Interrupt];
  }

  /** The first request from the start, taken by the device. */
  lemma OneTaken(s: State) returns (s1: State, s2: State)
    requires Start(s)
    ensures Inv(s) && Enabled(s, Submit(0, 1, 2)) && Step(s, Submit(0, 1, 2)) == Ok(s1)
    ensures Inv(s1) && Enabled(s1, DeviceTake) && Step(s1, DeviceTake) == Ok(s2)
    ensures Inv(s2) && s2.g.live == map[0 := Req(s.g.nextRid, 1, 2, Taken)] && s2.g.usedQ == []
    ensures s2.m.usedIdx == s2.m.driverIdx == Register(s2.g.seen)
  {
    hide Inv, Register, Cell;
    StartOk(s);
    SubmitOk(s, 0, 1, 2);
    s1 := Step(s, Submit(0, 1, 2)).s;
    IndexGap(s.g.taken, 1);
    IndexStep(s.g.taken);
    assert s1.g.availQ == [0];
    DeviceTakeOk(s1);
    AvailHead(s1);
    s2 := Step(s1, DeviceTake).s;
  }
}
