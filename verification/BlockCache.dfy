/** The block cache: slots of the LRU map hold block data with an index, a valid and a dirty bit. Every
    interleaving of its operations, with recycling, behaves as one store of blocks. */
module BlockCache {
  import opened Options
  import Lru

  type Block = seq<int>

  datatype Data = Data(index: nat, valid: bool, dirty: bool, bytes: Block)

  /** The holder of a slot's mutex; `checked` is the type parameter `VALID` of the guard. */
  datatype Guard = Guard(h: nat, checked: bool)

  datatype Cache = Cache(lru: Lru.State, data: map<nat, Data>, guards: map<nat, Guard>, disk: map<nat, Block>)

  /** Operations of clients. Guards hold a handle of their own; reading and setting pass it on to a new one. */
  datatype Op =
    | Handles(op: Lru.Op)
    | Lock(h: nat, g: nat)
    | Read(g: nat, next: nat, key: nat)
    | SetData(g: nat, next: nat, key: nat, bytes: Block)
    | BytesMut(g: nat, key: nat, bytes: Block)
    | Bytes(g: nat, key: nat)
    | TryValidate(g: nat, key: nat)
    | WriteBack(g: nat)
    | Unlock(slot: nat)

  // ----- the operations -----

  ghost predicate Known(c: Cache, h: nat) {
    h in c.lru.handles && c.lru.handles[h].slot in c.data
  }

  /** `g` holds the guard of its slot. */
  ghost predicate Guarded(c: Cache, g: nat) {
    Known(c, g) && !c.lru.handles[g].dropping && c.lru.handles[g].slot in c.guards &&
    c.guards[c.lru.handles[g].slot].h == g
  }

  /** The last reference is given up only by a client that has locked the block since it was looked up and
      has written back what it changed, and never while the guard is held. */
  ghost predicate MayRelease(c: Cache, h: nat) {
    Known(c, h) && var v := c.lru.handles[h];
    Lru.Holders(c.lru.handles, v.slot) == {h} ==>
      v.slot !in c.guards && c.data[v.slot].index == v.key && !(c.data[v.slot].valid && c.data[v.slot].dirty)
  }

  ghost predicate Legal(c: Cache, op: Op) {
    match op
    case Handles(o) =>
      Lru.Legal(c.lru, o) && (o.Get? ==> o.key in c.disk) && (o.EndDrop? ==> MayRelease(c, o.h))
    case Lock(h, g) => Lru.Legal(c.lru, Lru.Clone(h, g)) && Known(c, h) && c.lru.handles[h].slot !in c.guards
    case Read(g, next, key) => Guarded(c, g) && c.lru.handles[g].key == key && next !in c.lru.handles
    case SetData(g, next, key, bytes) => Guarded(c, g) && c.lru.handles[g].key == key && next !in c.lru.handles
    case BytesMut(g, key, bytes) =>
      Guarded(c, g) && c.lru.handles[g].key == key && c.guards[c.lru.handles[g].slot].checked
    case Bytes(g, key) => Guarded(c, g) && c.lru.handles[g].key == key && c.guards[c.lru.handles[g].slot].checked
    case TryValidate(g, key) => Guarded(c, g) && c.lru.handles[g].key == key
    case WriteBack(g) => Guarded(c, g) && c.guards[c.lru.handles[g].slot].checked
    case Unlock(slot) => slot in c.guards
  }

  /** `BlockRef::lock`: data left by another block is invalidated. */
  function Relabel(d: Data, key: nat): Data {
    if d.index != key then d.(index := key, valid := false) else d
  }

  /** `BlockGuard::read`. */
  function Validated(d: Data, onDisk: Block): Data {
    if d.valid then d else d.(valid := true, dirty := false, bytes := onDisk)
  }

  ghost function Step(c: Cache, op: Op): Cache
    requires Inv(c) && Legal(c, op)
  {
    match op
    case Handles(o) => c.(lru := Lru.Step(c.lru, o))
    case Lock(h, g) =>
      var v := c.lru.handles[h];
      c.(lru := Lru.Step(c.lru, Lru.Clone(h, g)), data := c.data[v.slot := Relabel(c.data[v.slot], v.key)],
         guards := c.guards[v.slot := Guard(g, false)])
    case Read(g, next, key) =>
      var v := c.lru.handles[g];
      DiskHas(c, g);
      c.(lru := Lru.Step(c.lru, Lru.Clone(g, next)), data := c.data[v.slot := Validated(c.data[v.slot], c.disk[key])],
         guards := c.guards[v.slot := Guard(next, true)])
    case SetData(g, next, key, bytes) =>
      var v := c.lru.handles[g];
      c.(lru := Lru.Step(c.lru, Lru.Clone(g, next)),
         data := c.data[v.slot := c.data[v.slot].(valid := true, dirty := true, bytes := bytes)],
         guards := c.guards[v.slot := Guard(next, true)])
    case BytesMut(g, key, bytes) =>
      var v := c.lru.handles[g];
      c.(data := c.data[v.slot := c.data[v.slot].(dirty := true, bytes := bytes)])
    case Bytes(g, key) => c
    case TryValidate(g, key) =>
      var v := c.lru.handles[g];
      if c.data[v.slot].valid then c.(guards := c.guards[v.slot := Guard(g, true)]) else c
    case WriteBack(g) =>
      var v := c.lru.handles[g];
      c.(disk := c.disk[v.key := c.data[v.slot].bytes], data := c.data[v.slot := c.data[v.slot].(dirty := false)])
    case Unlock(slot) => c.(guards := c.guards - {slot})
  }

  /** The bytes a client sees. */
  ghost function Output(c: Cache, op: Op): Option<Block>
    requires Inv(c) && Legal(c, op)
  {
    match op
    case Read(g, next, key) => DiskHas(c, g); Some(Validated(c.data[c.lru.handles[g].slot], c.disk[key]).bytes)
    case Bytes(g, key) => Some(c.data[c.lru.handles[g].slot].bytes)
    case _ => None
  }

  // ----- the reference: one store, no cache -----

  function Store(m: map<nat, Block>, op: Op): map<nat, Block> {
    match op
    case SetData(_, _, key, bytes) => m[key := bytes]
    case BytesMut(_, key, bytes) => m[key := bytes]
    case _ => m
  }

  function Seen(m: map<nat, Block>, op: Op): Option<Block> {
    match op
    case Read(_, _, key) => if key in m then Some(m[key]) else None
    case Bytes(_, key) => if key in m then Some(m[key]) else None
    case _ => None
  }

  // ----- invariant -----

  /** The slot knows the last value stored under its key, or the disk does. */
  ghost predicate Coherent(key: nat, d: Data, disk: map<nat, Block>, m: map<nat, Block>) {
    && key in disk && key in m
    && (if d.index == key && d.valid then m[key] == d.bytes && (!d.dirty ==> disk[key] == d.bytes)
        else m[key] == disk[key])
  }

  ghost predicate NodeOk(n: Lru.Node, handles: map<nat, Lru.Handle>, data: map<nat, Data>, guards: map<nat, Guard>) {
    && n.slot in data
    && (Lru.Holders(handles, n.slot) == {} ==>
          n.slot !in guards && !(data[n.slot].valid && data[n.slot].dirty) &&
          (n.key.Some? ==> data[n.slot].index == n.key.value))
    && (n.slot in guards ==>
         n.key.Some? && data[n.slot].index == n.key.value && (guards[n.slot].checked ==> data[n.slot].valid))
    && (n.key.None? ==> !data[n.slot].valid && Lru.Holders(handles, n.slot) == {})
  }

  ghost predicate NodesOk(list: seq<Lru.Node>, handles: map<nat, Lru.Handle>, data: map<nat, Data>,
                          guards: map<nat, Guard>) {
    forall n {:trigger n in list} :: n in list ==> NodeOk(n, handles, data, guards)
  }

  ghost predicate Inv(c: Cache) {
    && Lru.Inv(c.lru) && NodesOk(c.lru.list, c.lru.handles, c.data, c.guards)
    && forall n {:trigger n in c.lru.list} :: n in c.lru.list && n.key.Some? ==> n.key.value in c.disk
  }

  ghost predicate Absent(list: seq<Lru.Node>, key: nat) {
    forall n {:trigger n in list} :: n in list ==> n.key != Some(key)
  }

  /** The store `m` is what the cache and the disk together hold. */
  ghost predicate Holds(list: seq<Lru.Node>, data: map<nat, Data>, disk: map<nat, Block>, m: map<nat, Block>) {
    && (forall n {:trigger n in list} :: n in list && n.key.Some? && n.slot in data ==>
         Coherent(n.key.value, data[n.slot], disk, m))
    && (forall key {:trigger Absent(list, key)} :: key in disk && Absent(list, key) ==> key in m && m[key] == disk[key])
  }

  ghost predicate Refines(c: Cache, m: map<nat, Block>) {
    Holds(c.lru.list, c.data, c.disk, m)
  }

  lemma DiskHas(c: Cache, h: nat)
    requires Inv(c) && h in c.lru.handles
    ensures var v := c.lru.handles[h];
      && Lru.Node(Some(v.key), v.slot) in c.lru.list && v.slot in c.data && v.key in c.disk
      && NodeOk(Lru.Node(Some(v.key), v.slot), c.lru.handles, c.data, c.guards)
  {
    assert Lru.Held(c.lru.list, c.lru.handles[h]);
  }

  // ----- operations on one slot -----

  /** The two maps agree on every key but one. */
  ghost predicate SameBut(a: map<nat, Block>, b: map<nat, Block>, key: nat) {
    forall k {:trigger k in a} {:trigger k in b} :: k != key ==> (k in a <==> k in b) && (k in a ==> a[k] == b[k])
  }

  /** The same slots are referenced. */
  ghost predicate SameHeld(a: map<nat, Lru.Handle>, b: map<nat, Lru.Handle>) {
    forall slot {:trigger Lru.Holders(b, slot)} :: Lru.Holders(a, slot) == {} <==> Lru.Holders(b, slot) == {}
  }

  lemma SlotTouched(list: seq<Lru.Node>, handles: map<nat, Lru.Handle>, handles': map<nat, Lru.Handle>,
                    data: map<nat, Data>, guards: map<nat, Guard>,
                    slot: nat, key: nat, d: Data, g: Guard, disk: map<nat, Block>, disk': map<nat, Block>,
                    m: map<nat, Block>, m': map<nat, Block>)
    requires Lru.Distinct(list) && Lru.Node(Some(key), slot) in list && NodesOk(list, handles, data, guards)
    requires Holds(list, data, disk, m)
    requires SameHeld(handles, handles') && Lru.Holders(handles, slot) != {} && SameBut(disk, disk', key)
    requires SameBut(m, m', key)
    requires d.index == key && (g.checked ==> d.valid) && Coherent(key, d, disk', m')
    ensures NodesOk(list, handles', data[slot := d], guards[slot := g]) && Holds(list, data[slot := d], disk', m')
  {
    var data', guards' := data[slot := d], guards[slot := g];
    forall n {:trigger n in list} | n in list
      ensures NodeOk(n, handles', data', guards') && (n.key.Some? ==> Coherent(n.key.value, data'[n.slot], disk', m'))
    {
      NodesApart(list, n, Lru.Node(Some(key), slot));
      assert NodeOk(n, handles, data, guards);
      assert Lru.Holders(handles, n.slot) == {} <==> Lru.Holders(handles', n.slot) == {};
    }
    forall k {:trigger Absent(list, k)} | k in disk' && Absent(list, k) ensures k in m' && m'[k] == disk'[k] {
      assert k != key;
    }
  }

  lemma NodesApart(list: seq<Lru.Node>, a: Lru.Node, b: Lru.Node)
    requires Lru.Distinct(list) && a in list && b in list
    ensures a == b || (a.slot != b.slot && (a.key.None? || a.key != b.key))
  {
    var i :| 0 <= i < |list| && list[i] == a;
    var j :| 0 <= j < |list| && list[j] == b;
  }

  /** Another handle on a slot already referenced changes nothing about which slots are. */
  lemma CloneHolds(handles: map<nat, Lru.Handle>, h: nat, g: nat)
    requires h in handles && g !in handles
    ensures SameHeld(handles, handles[g := handles[h]]) && Lru.Holders(handles, handles[h].slot) != {}
  {
    var more := handles[g := handles[h]];
    assert h in Lru.Holders(handles, handles[h].slot) && h in Lru.Holders(more, handles[h].slot);
    forall slot {:trigger Lru.Holders(more, slot)}
      ensures Lru.Holders(handles, slot) == {} <==> Lru.Holders(more, slot) == {}
    {
      assert Lru.Holders(more, slot) ==
        if slot == handles[h].slot then Lru.Holders(handles, slot) + {g} else Lru.Holders(handles, slot);
    }
  }

  ghost predicate Simulates(c: Cache, op: Op, m: map<nat, Block>)
    requires Inv(c) && Legal(c, op)
  {
    Inv(Step(c, op)) && Refines(Step(c, op), Store(m, op)) && Output(c, op) == Seen(m, op)
  }

  lemma LockStep(c: Cache, h: nat, g: nat, m: map<nat, Block>)
    requires Inv(c) && Refines(c, m) && Legal(c, Lock(h, g))
    ensures Simulates(c, Lock(h, g), m)
  {
    hide Lru.Inv, NodesOk, Holds;
    DiskHas(c, h);
    Lru.StepOk(c.lru, Lru.Clone(h, g));
    CloneHolds(c.lru.handles, h, g);
    var v := c.lru.handles[h];
    NodeCoherent(c, m, h);
    SlotTouched(c.lru.list, c.lru.handles, c.lru.handles[g := v], c.data, c.guards, v.slot, v.key,
                Relabel(c.data[v.slot], v.key), Guard(g, false), c.disk, c.disk, m, m);
  }

  lemma NodeCoherent(c: Cache, m: map<nat, Block>, h: nat)
    requires Inv(c) && Refines(c, m) && h in c.lru.handles
    ensures var v := c.lru.handles[h];
      v.slot in c.data && Coherent(v.key, c.data[v.slot], c.disk, m) && Lru.Distinct(c.lru.list)
  {
    DiskHas(c, h);
  }

  lemma ReadStep(c: Cache, g: nat, next: nat, key: nat, m: map<nat, Block>)
    requires Inv(c) && Refines(c, m) && Legal(c, Read(g, next, key))
    ensures Simulates(c, Read(g, next, key), m)
  {
    hide Lru.Inv, NodesOk, Holds;
    DiskHas(c, g);
    Lru.StepOk(c.lru, Lru.Clone(g, next));
    CloneHolds(c.lru.handles, g, next);
    var v := c.lru.handles[g];
    NodeCoherent(c, m, g);
    SlotTouched(c.lru.list, c.lru.handles, c.lru.handles[next := v], c.data, c.guards, v.slot, key,
                Validated(c.data[v.slot], c.disk[key]), Guard(next, true), c.disk, c.disk, m, m);
  }

  lemma SetDataStep(c: Cache, g: nat, next: nat, key: nat, bytes: Block, m: map<nat, Block>)
    requires Inv(c) && Refines(c, m) && Legal(c, SetData(g, next, key, bytes))
    ensures Simulates(c, SetData(g, next, key, bytes), m)
  {
    hide Lru.Inv, NodesOk, Holds;
    DiskHas(c, g);
    Lru.StepOk(c.lru, Lru.Clone(g, next));
    CloneHolds(c.lru.handles, g, next);
    var v := c.lru.handles[g];
    NodeCoherent(c, m, g);
    SlotTouched(c.lru.list, c.lru.handles, c.lru.handles[next := v], c.data, c.guards, v.slot, key,
                c.data[v.slot].(valid := true, dirty := true, bytes := bytes), Guard(next, true),
                c.disk, c.disk, m, m[key := bytes]);
  }

  lemma BytesMutStep(c: Cache, g: nat, key: nat, bytes: Block, m: map<nat, Block>)
    requires Inv(c) && Refines(c, m) && Legal(c, BytesMut(g, key, bytes))
    ensures Simulates(c, BytesMut(g, key, bytes), m)
  {
    hide Lru.Inv, NodesOk, Holds;
    DiskHas(c, g);
    StillHeld(c.lru.handles, g);
    var v := c.lru.handles[g];
    NodeCoherent(c, m, g);
    SlotTouched(c.lru.list, c.lru.handles, c.lru.handles, c.data, c.guards, v.slot, key,
                c.data[v.slot].(dirty := true, bytes := bytes), c.guards[v.slot], c.disk, c.disk, m, m[key := bytes]);
    assert c.guards[v.slot := c.guards[v.slot]] == c.guards;
  }

  lemma StillHeld(handles: map<nat, Lru.Handle>, h: nat)
    requires h in handles
    ensures SameHeld(handles, handles) && Lru.Holders(handles, handles[h].slot) != {}
  {
    assert h in Lru.Holders(handles, handles[h].slot);
  }

  /** The disk then holds the last value stored under the key, and the slot is clean. */
  lemma WriteBackStep(c: Cache, g: nat, m: map<nat, Block>)
    requires Inv(c) && Refines(c, m) && Legal(c, WriteBack(g))
    ensures Simulates(c, WriteBack(g), m)
    ensures var v, c' := c.lru.handles[g], Step(c, WriteBack(g));
      && v.key in m && c'.disk == c.disk[v.key := m[v.key]]
      && v.slot in c'.data && c'.data[v.slot].bytes == m[v.key] && c'.data[v.slot].valid && !c'.data[v.slot].dirty
  {
    hide Lru.Inv, NodesOk, Holds;
    DiskHas(c, g);
    StillHeld(c.lru.handles, g);
    var v := c.lru.handles[g];
    NodeCoherent(c, m, g);
    SlotTouched(c.lru.list, c.lru.handles, c.lru.handles, c.data, c.guards, v.slot, v.key,
                c.data[v.slot].(dirty := false), c.guards[v.slot], c.disk, c.disk[v.key := c.data[v.slot].bytes], m, m);
    assert c.guards[v.slot := c.guards[v.slot]] == c.guards;
  }

  lemma UnlockStep(c: Cache, slot: nat, m: map<nat, Block>)
    requires Inv(c) && Refines(c, m) && Legal(c, Unlock(slot))
    ensures Simulates(c, Unlock(slot), m)
  {
    hide Lru.Inv, Holds;
    var guards' := c.guards - {slot};
    forall n {:trigger n in c.lru.list} | n in c.lru.list ensures NodeOk(n, c.lru.handles, c.data, guards') {
      assert NodeOk(n, c.lru.handles, c.data, c.guards);
    }
  }

  lemma BytesStep(c: Cache, g: nat, key: nat, m: map<nat, Block>)
    requires Inv(c) && Refines(c, m) && Legal(c, Bytes(g, key))
    ensures Simulates(c, Bytes(g, key), m)
  {
    hide Lru.Inv, NodesOk, Holds;
    DiskHas(c, g);
    NodeCoherent(c, m, g);
  }

  /** Data found valid are those of the guarded block, not of the one the slot held before. */
  lemma TryValidateStep(c: Cache, g: nat, key: nat, m: map<nat, Block>)
    requires Inv(c) && Refines(c, m) && Legal(c, TryValidate(g, key))
    ensures Simulates(c, TryValidate(g, key), m)
    ensures var v := c.lru.handles[g];
      v.slot in c.data && (c.data[v.slot].valid ==> key in m && c.data[v.slot].bytes == m[key])
  {
    hide Lru.Inv, NodesOk, Holds;
    DiskHas(c, g);
    StillHeld(c.lru.handles, g);
    var v := c.lru.handles[g];
    NodeCoherent(c, m, g);
    if c.data[v.slot].valid {
      SlotTouched(c.lru.list, c.lru.handles, c.lru.handles, c.data, c.guards, v.slot, key,
                  c.data[v.slot], Guard(g, true), c.disk, c.disk, m, m);
      assert c.data[v.slot := c.data[v.slot]] == c.data;
    }
  }

  // ----- operations on handles -----

  /** Nodes and references may be reordered and renamed as long as every slot stays referenced or not. */
  lemma SameNodes(list: seq<Lru.Node>, list': seq<Lru.Node>, handles: map<nat, Lru.Handle>,
                  handles': map<nat, Lru.Handle>,
                  data: map<nat, Data>, guards: map<nat, Guard>, disk: map<nat, Block>, m: map<nat, Block>)
    requires forall n {:trigger n in list'} {:trigger n in list} :: n in list' <==> n in list
    requires SameHeld(handles, handles') && NodesOk(list, handles, data, guards) && Holds(list, data, disk, m)
    ensures NodesOk(list', handles', data, guards) && Holds(list', data, disk, m)
  {
    forall n {:trigger n in list'} | n in list' ensures NodeOk(n, handles', data, guards) {
      assert n in list && NodeOk(n, handles, data, guards);
      assert Lru.Holders(handles, n.slot) == {} <==> Lru.Holders(handles', n.slot) == {};
    }
    forall key {:trigger Absent(list', key)} | key in disk && Absent(list', key)
      ensures key in m && m[key] == disk[key]
    {
      assert Absent(list, key);
    }
  }

  lemma CloneStep(c: Cache, from: nat, h: nat, m: map<nat, Block>)
    requires Inv(c) && Refines(c, m) && Legal(c, Handles(Lru.Clone(from, h)))
    ensures Simulates(c, Handles(Lru.Clone(from, h)), m)
  {
    hide Lru.Inv, NodesOk, Holds;
    Lru.StepOk(c.lru, Lru.Clone(from, h));
    CloneHolds(c.lru.handles, from, h);
    SameNodes(c.lru.list, c.lru.list, c.lru.handles, c.lru.handles[h := c.lru.handles[from]], c.data, c.guards, c.disk,
              m);
  }

  lemma StartDropStep(c: Cache, h: nat, m: map<nat, Block>)
    requires Inv(c) && Refines(c, m) && Legal(c, Handles(Lru.StartDrop(h)))
    ensures Simulates(c, Handles(Lru.StartDrop(h)), m)
  {
    hide Lru.Inv, NodesOk, Holds, Lru.Promoted;
    Lru.StepOk(c.lru, Lru.StartDrop(h));
    var v := c.lru.handles[h];
    var handles', list' := c.lru.handles[h := v.(dropping := true)], Lru.Promoted(c.lru.list, v.key);
    forall slot {:trigger Lru.Holders(handles', slot)}
      ensures Lru.Holders(c.lru.handles, slot) == {} <==> Lru.Holders(handles', slot) == {}
    {
      Lru.HoldersSame(c.lru.handles, h, v.(dropping := true), slot);
    }
    PromotedMembers(c.lru.list, v.key);
    SameNodes(c.lru.list, list', c.lru.handles, handles', c.data, c.guards, c.disk, m);
  }

  lemma PromotedMembers(list: seq<Lru.Node>, key: nat)
    ensures forall n {:trigger n in Lru.Promoted(list, key)} {:trigger n in list} ::
      n in Lru.Promoted(list, key) <==> n in list
  {
    var i := Lru.KeyIndex(list, key);
    if i < |list| {
      forall n ensures n in Lru.Front(list, i) <==> n in list { Lru.FrontMembers(list, i, n); }
    }
  }

  lemma EndDropStep(c: Cache, h: nat, m: map<nat, Block>)
    requires Inv(c) && Refines(c, m) && Legal(c, Handles(Lru.EndDrop(h)))
    ensures Simulates(c, Handles(Lru.EndDrop(h)), m)
  {
    hide Lru.Inv, Holds, Lru.Distinct;
    Lru.StepOk(c.lru, Lru.EndDrop(h));
    DiskHas(c, h);
    var v, handles' := c.lru.handles[h], c.lru.handles - {h};
    NodeCoherent(c, m, h);
    forall n {:trigger n in c.lru.list} | n in c.lru.list ensures NodeOk(n, handles', c.data, c.guards) {
      assert NodeOk(n, c.lru.handles, c.data, c.guards);
      NodesApart(c.lru.list, n, Lru.Node(Some(v.key), v.slot));
      assert Lru.Holders(handles', n.slot) == Lru.Holders(c.lru.handles, n.slot) - {h};
      assert h in Lru.Holders(c.lru.handles, v.slot);
      assert n.slot != v.slot ==> h !in Lru.Holders(c.lru.handles, n.slot);
    }
  }

  // ----- looking a block up -----

  lemma GetHit(c: Cache, h: nat, key: nat, i: nat, m: map<nat, Block>)
    requires Inv(c) && Refines(c, m) && h !in c.lru.handles && key in c.disk && i < |c.lru.list|
    requires c.lru.list[i].key == Some(key)
    ensures var slot := c.lru.list[i].slot;
      var list' := c.lru.list[i := Lru.Node(Some(key), slot)];
      var handles' := c.lru.handles[h := Lru.Handle(key, slot, false)];
      list' == c.lru.list && NodesOk(list', handles', c.data, c.guards) && Holds(list', c.data, c.disk, m)
  {
    hide Lru.Inv, Holds;
    var slot := c.lru.list[i].slot;
    var handles' := c.lru.handles[h := Lru.Handle(key, slot, false)];
    assert c.lru.list[i := Lru.Node(Some(key), slot)] == c.lru.list;
    forall n {:trigger n in c.lru.list} | n in c.lru.list ensures NodeOk(n, handles', c.data, c.guards) {
      assert NodeOk(n, c.lru.handles, c.data, c.guards);
      assert Lru.Holders(handles', n.slot) ==
        if n.slot == slot then Lru.Holders(c.lru.handles, n.slot) + {h} else Lru.Holders(c.lru.handles, n.slot);
      DistinctAt(c, i, n);
    }
  }

  lemma DistinctAt(c: Cache, i: nat, n: Lru.Node)
    requires Lru.Inv(c.lru) && i < |c.lru.list| && n in c.lru.list
    ensures n == c.lru.list[i] || (n.slot != c.lru.list[i].slot && (n.key.None? || n.key != c.lru.list[i].key))
  {
    NodesApart(c.lru.list, n, c.lru.list[i]);
  }

  /** Recycling: the victim's block is safe on disk, the new block is not cached yet. */
  lemma GetMiss(c: Cache, h: nat, key: nat, i: nat, m: map<nat, Block>)
    requires Inv(c) && Refines(c, m) && h !in c.lru.handles && key in c.disk && i < |c.lru.list|
    requires Absent(c.lru.list, key) && Lru.Holders(c.lru.handles, c.lru.list[i].slot) == {}
    ensures var slot := c.lru.list[i].slot;
      var list' := c.lru.list[i := Lru.Node(Some(key), slot)];
      var handles' := c.lru.handles[h := Lru.Handle(key, slot, false)];
      NodesOk(list', handles', c.data, c.guards) && Holds(list', c.data, c.disk, m)
  {
    hide Lru.Inv;
    var was, slot := c.lru.list[i], c.lru.list[i].slot;
    var list', handles' := c.lru.list[i := Lru.Node(Some(key), slot)], c.lru.handles[h := Lru.Handle(key, slot, false)];
    assert was in c.lru.list && NodeOk(was, c.lru.handles, c.data, c.guards);
    forall n {:trigger n in list'} | n in list'
      ensures NodeOk(n, handles', c.data, c.guards)
      ensures (n.key.Some? ==> Coherent(n.key.value, c.data[n.slot], c.disk, m))
    {
      Rekeyed(c, i, key, n);
      assert Lru.Holders(handles', n.slot) ==
        if n.slot == slot then Lru.Holders(c.lru.handles, n.slot) + {h} else Lru.Holders(c.lru.handles, n.slot);
      if n.slot != slot { assert NodeOk(n, c.lru.handles, c.data, c.guards); }
    }
    forall k {:trigger Absent(list', k)} | k in c.disk && Absent(list', k) ensures k in m && m[k] == c.disk[k] {
      if was.key == Some(k) {
        assert Coherent(k, c.data[slot], c.disk, m);
      } else {
        AbsentBefore(c.lru.list, i, list', k);
      }
    }
  }

  /** Whatever its clients did before: handing a slot that holds `was` over to the uncached block `key` loses nothing
      exactly when its data, if they pass for the old or the new block, are what the disk holds of it. */
  lemma RecycleSafeIff(c: Cache, key: nat, i: nat, was: nat, m: map<nat, Block>)
    requires Lru.Inv(c.lru) && Refines(c, m) && key in c.disk && Absent(c.lru.list, key)
    requires i < |c.lru.list| && c.lru.list[i].key == Some(was) && c.lru.list[i].slot in c.data
    ensures was in c.disk
    ensures var d, list' := c.data[c.lru.list[i].slot], c.lru.list[i := Lru.Node(Some(key), c.lru.list[i].slot)];
      Holds(list', c.data, c.disk, m) <==>
        (d.valid && (d.index == was || d.index == key) ==> d.bytes == c.disk[d.index])
  {
    hide Lru.Inv;
    var slot := c.lru.list[i].slot;
    var d, list' := c.data[slot], c.lru.list[i := Lru.Node(Some(key), slot)];
    assert c.lru.list[i] in c.lru.list && Coherent(was, d, c.disk, m);
    assert list'[i] == Lru.Node(Some(key), slot) && list'[i] in list';
    forall n {:trigger n in list'} | n in list' ensures n == list'[i] || (n in c.lru.list && n.key != Some(was)) {
      Rekeyed(c, i, key, n);
      if n in c.lru.list { DistinctAt(c, i, n); }
    }
    assert Absent(list', was);
    forall k {:trigger Absent(list', k)} | Absent(list', k) && k != was ensures Absent(c.lru.list, k) {
      AbsentBefore(c.lru.list, i, list', k);
    }
  }

  lemma Rekeyed(c: Cache, i: nat, key: nat, n: Lru.Node)
    requires Lru.Inv(c.lru) && i < |c.lru.list| && n in c.lru.list[i := Lru.Node(Some(key), c.lru.list[i].slot)]
    ensures n == Lru.Node(Some(key), c.lru.list[i].slot) || (n in c.lru.list && n.slot != c.lru.list[i].slot)
  {
    var list' := c.lru.list[i := Lru.Node(Some(key), c.lru.list[i].slot)];
    var j :| 0 <= j < |list'| && list'[j] == n;
    assert j != i ==> c.lru.list[j] == n;
  }

  lemma AbsentBefore(list: seq<Lru.Node>, i: nat, list': seq<Lru.Node>, k: nat)
    requires i < |list| && |list'| == |list|
    requires (forall j {:trigger list'[j]} :: 0 <= j < |list| && j != i ==> list'[j] == list[j])
    requires Absent(list', k) && list[i].key != Some(k)
    ensures Absent(list, k)
  {
    forall n {:trigger n in list} | n in list ensures n.key != Some(k) {
      var j :| 0 <= j < |list| && list[j] == n;
      if j != i { assert list'[j] in list'; }
    }
  }

  lemma KeysOnDisk(list: seq<Lru.Node>, handles: map<nat, Lru.Handle>, data: map<nat, Data>, guards: map<nat, Guard>,
                   disk: map<nat, Block>, m: map<nat, Block>)
    requires NodesOk(list, handles, data, guards) && Holds(list, data, disk, m)
    ensures forall n {:trigger n in list} :: n in list && n.key.Some? ==> n.key.value in disk
  {
    forall n {:trigger n in list} | n in list && n.key.Some? ensures n.key.value in disk {
      assert NodeOk(n, handles, data, guards) && Coherent(n.key.value, data[n.slot], disk, m);
    }
  }

  lemma GetStep(c: Cache, h: nat, key: nat, m: map<nat, Block>)
    requires Inv(c) && Refines(c, m) && Legal(c, Handles(Lru.Get(h, key)))
    ensures Simulates(c, Handles(Lru.Get(h, key)), m)
  {
    hide NodesOk, Holds, Lru.Distinct, Lru.Recent, Lru.HandlesOk;
    Lru.StepOk(c.lru, Lru.Get(h, key));
    Lru.AllKnown(c.lru);
    assert forall i {:trigger c.lru.list[i]} ::
        0 <= i < |c.lru.list| ==> Lru.Counted(c.lru.refs, c.lru.handles, c.lru.list[i].slot);
    var r := Lru.Place(c.lru.list, c.lru.refs, key);
    if r.Some? {
      if Lru.KeyIndex(c.lru.list, key) < |c.lru.list| {
        GetHit(c, h, key, r.value, m);
      } else {
        GetMiss(c, h, key, r.value, m);
      }
      var c' := Step(c, Handles(Lru.Get(h, key)));
      KeysOnDisk(c'.lru.list, c'.lru.handles, c.data, c.guards, c.disk, m);
    }
  }

  lemma HandleStep(c: Cache, o: Lru.Op, m: map<nat, Block>)
    requires Inv(c) && Refines(c, m) && Legal(c, Handles(o))
    ensures Simulates(c, Handles(o), m)
  {
    hide Inv, Refines, Simulates, Step, Store;
    match o
    case Get(h, key) => GetStep(c, h, key, m);
    case Clone(from, h) => CloneStep(c, from, h, m);
    case StartDrop(h) => StartDropStep(c, h, m);
    case EndDrop(h) => EndDropStep(c, h, m);
  }

  // ----- whole runs -----

  lemma StepSimulates(c: Cache, op: Op, m: map<nat, Block>)
    requires Inv(c) && Refines(c, m) && Legal(c, op)
    ensures Simulates(c, op, m)
  {
    hide Inv, Refines, Simulates, Step, Store;
    match op
    case Handles(o) =>
      HandleStep(c, o, m);
    case Lock(h, g) => LockStep(c, h, g, m);
    case Read(g, next, key) => ReadStep(c, g, next, key, m);
    case SetData(g, next, key, bytes) => SetDataStep(c, g, next, key, bytes, m);
    case BytesMut(g, key, bytes) => BytesMutStep(c, g, key, bytes, m);
    case Bytes(g, key) => BytesStep(c, g, key, m);
    case TryValidate(g, key) => TryValidateStep(c, g, key, m);
    case WriteBack(g) => WriteBackStep(c, g, m);
    case Unlock(slot) => UnlockStep(c, slot, m);
  }

  ghost predicate LegalRun(c: Cache, ops: seq<Op>, m: map<nat, Block>)
    requires Inv(c) && Refines(c, m)
    decreases |ops|
  {
    ops == [] || (Legal(c, ops[0]) &&
      (StepSimulates(c, ops[0], m); LegalRun(Step(c, ops[0]), ops[1..], Store(m, ops[0]))))
  }

  /** What the clients of the cache see over a run. */
  ghost function Outputs(c: Cache, ops: seq<Op>, m: map<nat, Block>): seq<Option<Block>>
    requires Inv(c) && Refines(c, m) && LegalRun(c, ops, m)
    decreases |ops|
  {
    if ops == [] then [] else
    StepSimulates(c, ops[0], m);
    [Output(c, ops[0])] + Outputs(Step(c, ops[0]), ops[1..], Store(m, ops[0]))
  }

  /** What they would see with a plain store of blocks. */
  ghost function StoreOutputs(m: map<nat, Block>, ops: seq<Op>): seq<Option<Block>>
    decreases |ops|
  {
    if ops == [] then [] else [Seen(m, ops[0])] + StoreOutputs(Store(m, ops[0]), ops[1..])
  }

  /** Every run of the cache shows its clients exactly what one store of blocks would. */
  lemma {:induction false} CacheRefinesStore(c: Cache, ops: seq<Op>, m: map<nat, Block>)
    requires Inv(c) && Refines(c, m) && LegalRun(c, ops, m)
    ensures Outputs(c, ops, m) == StoreOutputs(m, ops)
    decreases |ops|
  {
    hide Inv, Refines, Legal, Step, Store, Output, Seen;
    if ops != [] {
      StepSimulates(c, ops[0], m);
      CacheRefinesStore(Step(c, ops[0]), ops[1..], Store(m, ops[0]));
    }
  }

  // ----- what the operations alone tell -----

  /** The last value stored under the key in the course of `ops`. */
  function LastStored(now: Option<Block>, ops: seq<Op>, key: nat): Option<Block>
    decreases |ops|
  {
    if ops == [] then now
    else
      LastStored(if (ops[0].SetData? || ops[0].BytesMut?) && ops[0].key == key then Some(ops[0].bytes) else now,
                 ops[1..], key)
  }

  function ValueOf(m: map<nat, Block>, key: nat): Option<Block> {
    if key in m then Some(m[key]) else None
  }

  lemma OutputKnown(c: Cache, op: Op, m: map<nat, Block>)
    requires Inv(c) && Refines(c, m) && Legal(c, op) && (op.Read? || op.Bytes?)
    ensures op.key in m && Output(c, op) == Some(m[op.key])
  {
    hide Lru.Inv, NodesOk, Holds;
    DiskHas(c, op.g);
    NodeCoherent(c, m, op.g);
    StepSimulates(c, op, m);
  }

  /** In every run each read returns the last value stored under its key, or what the store held at the start. */
  lemma {:induction false} ReadsReturnLastStored(c: Cache, ops: seq<Op>, m: map<nat, Block>, k: nat)
    requires Inv(c) && Refines(c, m) && LegalRun(c, ops, m) && k < |ops| && (ops[k].Read? || ops[k].Bytes?)
    ensures |Outputs(c, ops, m)| == |ops| && Outputs(c, ops, m)[k].Some?
    ensures Outputs(c, ops, m)[k] == LastStored(ValueOf(m, ops[k].key), ops[..k], ops[k].key)
    decreases k
  {
    hide Inv, Refines, Legal, Step, Output;
    var op, key := ops[0], ops[k].key;
    StepSimulates(c, op, m);
    var c', m' := Step(c, op), Store(m, op);
    OutputsLength(c', ops[1..], m');
    if k == 0 {
      OutputKnown(c, op, m);
    } else {
      ReadsReturnLastStored(c', ops[1..], m', k - 1);
      assert ops[..k][0] == op && ops[..k][1..] == ops[1..][..k - 1];
    }
  }

  lemma {:induction false} OutputsLength(c: Cache, ops: seq<Op>, m: map<nat, Block>)
    requires Inv(c) && Refines(c, m) && LegalRun(c, ops, m)
    ensures |Outputs(c, ops, m)| == |ops|
    decreases |ops|
  {
    hide Inv, Refines, Legal, Step, Store, Output;
    if ops != [] {
      StepSimulates(c, ops[0], m);
      OutputsLength(Step(c, ops[0]), ops[1..], Store(m, ops[0]));
    }
  }

  /** The value stored under the key when it was last written back. */
  ghost function LastWritten(c: Cache, ops: seq<Op>, m: map<nat, Block>, key: nat, now: Option<Block>): Option<Block>
    requires Inv(c) && Refines(c, m) && LegalRun(c, ops, m)
    decreases |ops|
  {
    if ops == [] then now
    else
      StepSimulates(c, ops[0], m);
      LastWritten(Step(c, ops[0]), ops[1..], Store(m, ops[0]), key,
                  if ops[0].WriteBack? && c.lru.handles[ops[0].g].key == key then ValueOf(m, key) else now)
  }

  /** Who has the guard of the slot, and whether the data under it are known to be valid. */
  ghost function LastGuard(c: Cache, ops: seq<Op>, m: map<nat, Block>, slot: nat, now: Option<Guard>): Option<Guard>
    requires Inv(c) && Refines(c, m) && LegalRun(c, ops, m)
    decreases |ops|
  {
    if ops == [] then now
    else
      StepSimulates(c, ops[0], m);
      LastGuard(Step(c, ops[0]), ops[1..], Store(m, ops[0]), slot, GuardAfter(c, ops[0], slot, now))
  }

  ghost function GuardAfter(c: Cache, op: Op, slot: nat, now: Option<Guard>): Option<Guard>
    requires Legal(c, op)
  {
    match op
    case Lock(h, g) => if c.lru.handles[h].slot == slot then Some(Guard(g, false)) else now
    case Read(g, next, _) => if c.lru.handles[g].slot == slot then Some(Guard(next, true)) else now
    case SetData(g, next, _, _) => if c.lru.handles[g].slot == slot then Some(Guard(next, true)) else now
    case TryValidate(g, _) =>
      if c.lru.handles[g].slot == slot && c.data[slot].valid then Some(Guard(g, true)) else now
    case Unlock(o) => if o == slot then None else now
    case _ => now
  }

  ghost function GuardOf(guards: map<nat, Guard>, slot: nat): Option<Guard> {
    if slot in guards then Some(guards[slot]) else None
  }

  lemma StepTells(c: Cache, op: Op, m: map<nat, Block>, key: nat, slot: nat)
    requires Inv(c) && Refines(c, m) && Legal(c, op)
    ensures ValueOf(Step(c, op).disk, key) ==
      if op.WriteBack? && c.lru.handles[op.g].key == key then ValueOf(m, key) else ValueOf(c.disk, key)
    ensures GuardOf(Step(c, op).guards, slot) == GuardAfter(c, op, slot, GuardOf(c.guards, slot))
  {
    hide Inv, Refines, Lru.Step, Lru.Legal;
    if op.WriteBack? { WriteBackStep(c, op.g, m); }
    if op.Read? { DiskHas(c, op.g); }
  }

  /** In every run the disk holds under each key the value stored there when it was last written back, and the guards
      are with those who locked a slot, or read or set it since. */
  lemma {:induction false} OperationsTell(c: Cache, ops: seq<Op>, m: map<nat, Block>, key: nat, slot: nat)
    requires Inv(c) && Refines(c, m) && LegalRun(c, ops, m)
    ensures ValueOf(Run(c, ops, m).disk, key) == LastWritten(c, ops, m, key, ValueOf(c.disk, key))
    ensures GuardOf(Run(c, ops, m).guards, slot) == LastGuard(c, ops, m, slot, GuardOf(c.guards, slot))
    decreases |ops|
  {
    hide Inv, Refines, Legal, Step, Store, GuardAfter, GuardOf, ValueOf;
    if ops != [] {
      StepSimulates(c, ops[0], m);
      StepTells(c, ops[0], m, key, slot);
      OperationsTell(Step(c, ops[0]), ops[1..], Store(m, ops[0]), key, slot);
    }
  }

  /** What an operation asks of the list of slots. */
  function ListOp(op: Op): seq<Lru.Op> {
    match op
    case Handles(o) => [o]
    case Lock(h, g) => [Lru.Clone(h, g)]
    case Read(g, next, _) => [Lru.Clone(g, next)]
    case SetData(g, next, _, _) => [Lru.Clone(g, next)]
    case _ => []
  }

  function ListOps(ops: seq<Op>): seq<Lru.Op>
    decreases |ops|
  {
    if ops == [] then [] else ListOp(ops[0]) + ListOps(ops[1..])
  }

  lemma ListOpLegal(c: Cache, op: Op)
    requires Inv(c) && Legal(c, op)
    ensures Lru.Inv(c.lru) && |ListOp(op)| <= 1
    ensures ListOp(op) != [] ==> Lru.Legal(c.lru, ListOp(op)[0]) && Step(c, op).lru == Lru.Step(c.lru, ListOp(op)[0])
    ensures ListOp(op) == [] ==> Step(c, op).lru == c.lru
  {
    hide Lru.Inv, NodesOk, Lru.Step;
    if op.Read? { DiskHas(c, op.g); }
  }

  /** Every run of the cache is a run of its list of slots: what holds of those in every run holds here. */
  lemma {:induction false} ListRunsAlong(c: Cache, ops: seq<Op>, m: map<nat, Block>)
    requires Inv(c) && Refines(c, m) && LegalRun(c, ops, m)
    ensures Lru.Inv(c.lru) && Lru.LegalRun(c.lru, ListOps(ops))
    ensures Run(c, ops, m).lru == Lru.Run(c.lru, ListOps(ops))
    decreases |ops|
  {
    hide Inv, Refines, Legal, Step, Store, Lru.Inv, Lru.Step, Lru.Legal;
    if ops == [] {
      ListInv(c);
    } else {
      StepSimulates(c, ops[0], m);
      ListOpLegal(c, ops[0]);
      ListRunsAlong(Step(c, ops[0]), ops[1..], Store(m, ops[0]));
      var now, rest := ListOp(ops[0]), ListOps(ops[1..]);
      if now == [] {
        assert now + rest == rest;
      } else {
        Lru.StepOk(c.lru, now[0]);
        assert (now + rest)[0] == now[0] && (now + rest)[1..] == rest;
      }
    }
  }

  lemma ListInv(c: Cache)
    requires Inv(c)
    ensures Lru.Inv(c.lru)
  {
  }

  /** `BlockIoCache::new`: every slot holds the default data. */
  ghost predicate FreshCache(c: Cache, size: nat) {
    && c.lru == Lru.Fresh(size) && c.guards == map[]
    && (forall slot: nat {:trigger slot in c.data} :: slot < size ==>
         slot in c.data && c.data[slot].index == 0 && !c.data[slot].valid && c.data[slot].dirty)
  }

  lemma FreshRefines(c: Cache, size: nat)
    requires FreshCache(c, size)
    ensures Inv(c) && Refines(c, c.disk)
  {
    hide Lru.Fresh;
    Lru.FreshOk(size);
    forall n {:trigger n in c.lru.list} | n in c.lru.list
      ensures n.key.None? && NodeOk(n, c.lru.handles, c.data, c.guards)
    {
      var i :| 0 <= i < |c.lru.list| && c.lru.list[i] == n;
      assert i in c.data;
      assert Lru.Holders(c.lru.handles, n.slot) == {};
    }
  }

  // ----- a change that is not written back -----

  ghost function Run(c: Cache, ops: seq<Op>, m: map<nat, Block>): Cache
    requires Inv(c) && Refines(c, m) && LegalRun(c, ops, m)
    decreases |ops|
  {
    if ops == [] then c else
    StepSimulates(c, ops[0], m);
    Run(Step(c, ops[0]), ops[1..], Store(m, ops[0]))
  }

  /** A legal run from `c`, which stands for the store `m`, to `d`, which stands for `m'`. */
  ghost predicate Reaches(c: Cache, m: map<nat, Block>, ops: seq<Op>, d: Cache, m': map<nat, Block>) {
    Inv(c) && Refines(c, m) && LegalRun(c, ops, m) && Run(c, ops, m) == d && Inv(d) && Refines(d, m')
  }

  lemma ReachesNext(c: Cache, m: map<nat, Block>, ops: seq<Op>, d: Cache, m': map<nat, Block>, op: Op)
    requires Reaches(c, m, ops, d, m') && Legal(d, op)
    ensures Reaches(c, m, ops + [op], Step(d, op), Store(m', op))
  {
    hide Inv, Refines, Legal, Step, Store, LegalRun, Run;
    StepSimulates(d, op, m');
    RunSnoc(c, m, ops, op);
  }

  lemma {:induction false} RunSnoc(c: Cache, m: map<nat, Block>, ops: seq<Op>, op: Op)
    requires Inv(c) && Refines(c, m) && LegalRun(c, ops, m)
    requires Inv(Run(c, ops, m)) && Legal(Run(c, ops, m), op)
    ensures LegalRun(c, ops + [op], m) && Run(c, ops + [op], m) == Step(Run(c, ops, m), op)
    decreases |ops|
  {
    hide Inv, Refines, Legal, Step, Store;
    if ops == [] {
      assert ops + [op] == [op];
      StepSimulates(c, op, m);
    } else {
      StepSimulates(c, ops[0], m);
      assert (ops + [op])[1..] == ops[1..] + [op];
      RunSnoc(Step(c, ops[0]), Store(m, ops[0]), ops[1..], op);
    }
  }

  /** A cache of one slot that holds `key`. */
  ghost predicate Single(c: Cache, key: nat, handles: map<nat, Lru.Handle>, d: Data, guards: map<nat, Guard>) {
    && c.lru.list == [Lru.Node(Some(key), 0)] && c.lru.handles == handles
    && 0 in c.data && c.data[0] == d && c.guards == guards
  }

  function Live(key: nat): Lru.Handle {
    Lru.Handle(key, 0, false)
  }

  lemma OneLooked(c: Cache, key: nat)
    requires FreshCache(c, 1) && key in c.disk
    ensures Inv(c) && Refines(c, c.disk) && Legal(c, Handles(Lru.Get(0, key)))
    ensures 0 in c.data && c.data[0].index == 0 && !c.data[0].valid
    ensures var d := Step(c, Handles(Lru.Get(0, key)));
      Single(d, key, map[0 := Live(key)], c.data[0], map[]) && d.disk == c.disk
  {
    hide Lru.Fresh;
    FreshRefines(c, 1);
    assert c.lru.list[0] == Lru.Node(None, 0);
    assert c.lru.list == [Lru.Node(None, 0)] && 0 in c.data;
    Lru.AllKnown(c.lru);
  }

  lemma OneLocked(c: Cache, key: nat, d: Data)
    requires Inv(c) && Single(c, key, map[0 := Live(key)], d, map[]) && !d.valid
    ensures Legal(c, Lock(0, 1))
    ensures var e := Step(c, Lock(0, 1));
      && e.disk == c.disk
      && Single(e, key, map[0 := Live(key), 1 := Live(key)], d.(index := key), map[0 := Guard(1, false)])
  {
    hide Inv;
  }

  lemma OneSet(c: Cache, key: nat, d: Data, bytes: Block)
    requires Inv(c) && Single(c, key, map[0 := Live(key), 1 := Live(key)], d, map[0 := Guard(1, false)])
    ensures Legal(c, SetData(1, 2, key, bytes))
    ensures var e := Step(c, SetData(1, 2, key, bytes));
      && e.disk == c.disk
      && Single(e, key, map[0 := Live(key), 1 := Live(key), 2 := Live(key)],
                d.(valid := true, dirty := true, bytes := bytes), map[0 := Guard(2, true)])
  {
    hide Inv;
  }

  lemma OneUnlocked(c: Cache, key: nat, handles: map<nat, Lru.Handle>, d: Data, g: Guard)
    requires Inv(c) && Single(c, key, handles, d, map[0 := g])
    ensures Legal(c, Unlock(0))
    ensures var e := Step(c, Unlock(0)); Single(e, key, handles, d, map[]) && e.disk == c.disk
  {
    hide Inv;
    assert map[0 := g] - {0} == map[];
  }

  lemma OneReleased(c: Cache, key: nat, handles: map<nat, Lru.Handle>, d: Data, h: nat)
    requires Inv(c) && Single(c, key, handles, d, map[]) && h in handles && handles[h] == Live(key)
    ensures Legal(c, Handles(Lru.StartDrop(h)))
    ensures var e := Step(c, Handles(Lru.StartDrop(h)));
      Single(e, key, handles[h := Live(key).(dropping := true)], d, map[]) && e.disk == c.disk
  {
    hide Inv;
    assert c.lru.list[..0] == [] && c.lru.list[1..] == [];
  }

  /** Giving back a reference while another one is there. */
  lemma OneReturned(c: Cache, key: nat, handles: map<nat, Lru.Handle>, d: Data, h: nat)
    requires Inv(c) && Single(c, key, handles, d, map[]) && h in handles && handles[h] == Live(key).(dropping := true)
    requires 0 in handles && h != 0 && handles[0].slot == 0
    ensures Legal(c, Handles(Lru.EndDrop(h)))
    ensures var e := Step(c, Handles(Lru.EndDrop(h))); Single(e, key, handles - {h}, d, map[]) && e.disk == c.disk
  {
    hide Inv;
    assert 0 in Lru.Holders(c.lru.handles, 0);
  }

  /** Look a block up, lock it, set its data, unlock it, drop the guards, and begin to drop the handle. */
  function Unwritten(key: nat, bytes: Block): seq<Op> {
    [Handles(Lru.Get(0, key)), Lock(0, 1), SetData(1, 2, key, bytes), Unlock(0)] +
    [Handles(Lru.StartDrop(1)), Handles(Lru.EndDrop(1))] + [Handles(Lru.StartDrop(2)), Handles(Lru.EndDrop(2))] +
    [Handles(Lru.StartDrop(0))]
  }

  lemma ChangedRun(c: Cache, key: nat, bytes: Block) returns (d: Cache)
    requires FreshCache(c, 1) && key in c.disk
    ensures Reaches(c, c.disk, Unwritten(key, bytes)[..4], d, c.disk[key := bytes]) && d.disk == c.disk
    ensures Single(d, key, map[0 := Live(key), 1 := Live(key), 2 := Live(key)], Data(key, true, true, bytes), map[])
  {
    hide Inv, Refines, Legal, Step, FreshCache;
    OneLooked(c, key);
    assert Reaches(c, c.disk, [], c, c.disk);
    hide LegalRun, Run;
    var get := Handles(Lru.Get(0, key));
    ReachesNext(c, c.disk, [], c, c.disk, get);
    var c1 := Step(c, get);
    OneLocked(c1, key, c.data[0]);
    ReachesNext(c, c.disk, [] + [get], c1, c.disk, Lock(0, 1));
    var c2 := Step(c1, Lock(0, 1));
    OneSet(c2, key, c.data[0].(index := key), bytes);
    ReachesNext(c, c.disk, [] + [get] + [Lock(0, 1)], c2, c.disk, SetData(1, 2, key, bytes));
    var c3 := Step(c2, SetData(1, 2, key, bytes));
    var all := map[0 := Live(key), 1 := Live(key), 2 := Live(key)];
    OneUnlocked(c3, key, all, Data(key, true, true, bytes), Guard(2, true));
    var ops := [] + [get] + [Lock(0, 1)] + [SetData(1, 2, key, bytes)];
    ReachesNext(c, c.disk, ops, c3, c.disk[key := bytes], Unlock(0));
    d := Step(c3, Unlock(0));
    assert Unwritten(key, bytes)[..4] == ops + [Unlock(0)];
  }

  lemma DroppedRun(c: Cache, m: map<nat, Block>, ops: seq<Op>, d: Cache, m': map<nat, Block>, key: nat,
                   handles: map<nat, Lru.Handle>, v: Data, h: nat)
    returns (e: Cache)
    requires Reaches(c, m, ops, d, m') && Single(d, key, handles, v, map[])
    requires h in handles && handles[h] == Live(key) && 0 in handles && h != 0 && handles[0].slot == 0
    ensures Reaches(c, m, ops + [Handles(Lru.StartDrop(h)), Handles(Lru.EndDrop(h))], e, m') && e.disk == d.disk
    ensures Single(e, key, handles - {h}, v, map[])
  {
    hide Inv, Refines, Legal, Step, LegalRun, Run;
    var drop, end := Handles(Lru.StartDrop(h)), Handles(Lru.EndDrop(h));
    OneReleased(d, key, handles, v, h);
    ReachesNext(c, m, ops, d, m', drop);
    var d1, handles1 := Step(d, drop), handles[h := Live(key).(dropping := true)];
    OneReturned(d1, key, handles1, v, h);
    ReachesNext(c, m, ops + [drop], d1, m', end);
    e := Step(d1, end);
    assert handles1 - {h} == handles - {h};
    assert ops + [drop] + [end] == ops + [drop, end];
  }

  lemma LastDropped(c: Cache, m: map<nat, Block>, ops: seq<Op>, d: Cache, m': map<nat, Block>, key: nat, v: Data)
    requires Reaches(c, m, ops, d, m') && Single(d, key, map[0 := Live(key)], v, map[])
    ensures Inv(d) && Legal(d, Handles(Lru.StartDrop(0)))
    ensures var e := Step(d, Handles(Lru.StartDrop(0)));
      && Reaches(c, m, ops + [Handles(Lru.StartDrop(0))], e, m') && e.disk == d.disk
      && Single(e, key, map[0 := Live(key).(dropping := true)], v, map[])
  {
    hide Inv, Refines, Legal, Step, LegalRun, Run;
    OneReleased(d, key, map[0 := Live(key)], v, 0);
    ReachesNext(c, m, ops, d, m', Handles(Lru.StartDrop(0)));
    assert map[0 := Live(key)][0 := Live(key).(dropping := true)] == map[0 := Live(key).(dropping := true)];
  }

  lemma UnwrittenRun(c: Cache, key: nat, bytes: Block) returns (d: Cache)
    requires FreshCache(c, 1) && key in c.disk
    ensures Reaches(c, c.disk, Unwritten(key, bytes), d, c.disk[key := bytes]) && d.disk == c.disk
    ensures Single(d, key, map[0 := Live(key).(dropping := true)], Data(key, true, true, bytes), map[])
  {
    hide Inv, Refines, Legal, Step, LegalRun, Run, FreshCache, Reaches;
    var ops, v, m := Unwritten(key, bytes)[..4], Data(key, true, true, bytes), c.disk[key := bytes];
    var c4 := ChangedRun(c, key, bytes);
    var all := map[0 := Live(key), 1 := Live(key), 2 := Live(key)];
    var c6 := DroppedRun(c, c.disk, ops, c4, m, key, all, v, 1);
    var ops6 := ops + [Handles(Lru.StartDrop(1)), Handles(Lru.EndDrop(1))];
    var c8 := DroppedRun(c, c.disk, ops6, c6, m, key, all - {1}, v, 2);
    var ops8 := ops6 + [Handles(Lru.StartDrop(2)), Handles(Lru.EndDrop(2))];
    assert all - {1} - {2} == map[0 := Live(key)];
    LastDropped(c, c.disk, ops8, c8, m, key, v);
    d := Step(c8, Handles(Lru.StartDrop(0)));
    assert ops8 + [Handles(Lru.StartDrop(0))] == Unwritten(key, bytes);
  }

  /** The handles change, whatever becomes of the data. */
  ghost function Handled(c: Cache, o: Lru.Op): Cache
    requires Lru.Inv(c.lru) && Lru.Legal(c.lru, o)
  {
    c.(lru := Lru.Step(c.lru, o))
  }

  /** The last release of a changed block that was not written back, and a lookup of another block: from then on the
      cache stands for the store in which the change never happened. */
  lemma UnwrittenLost(c: Cache, key: nat, other: nat, bytes: Block)
    requires FreshCache(c, 1) && key in c.disk && other in c.disk && key != other && bytes != c.disk[key]
    ensures Inv(c) && Refines(c, c.disk) && LegalRun(c, Unwritten(key, bytes), c.disk)
    ensures var d := Run(c, Unwritten(key, bytes), c.disk);
      && Refines(d, c.disk[key := bytes]) && Lru.Inv(d.lru) && Lru.Legal(d.lru, Lru.EndDrop(0)) && !MayRelease(d, 0)
      && var e := Handled(d, Lru.EndDrop(0));
         && Lru.Inv(e.lru) && Lru.Legal(e.lru, Lru.Get(1, other))
         && var f := Handled(e, Lru.Get(1, other));
            Inv(f) && Refines(f, c.disk) && !Refines(f, c.disk[key := bytes])
  {
    hide LegalRun, Run, FreshCache, Unwritten, Inv, Refines, Lru.Inv, Lru.Step, MayRelease;
    var d := UnwrittenRun(c, key, bytes);
    Recycled(d, key, other, bytes, c.disk);
  }

  lemma Recycled(d: Cache, key: nat, other: nat, bytes: Block, disk: map<nat, Block>)
    requires Inv(d) && d.disk == disk && key in disk && other in disk && key != other && bytes != disk[key]
    requires Single(d, key, map[0 := Live(key).(dropping := true)], Data(key, true, true, bytes), map[])
    ensures Lru.Inv(d.lru) && Lru.Legal(d.lru, Lru.EndDrop(0)) && !MayRelease(d, 0)
    ensures var e := Handled(d, Lru.EndDrop(0));
      && Lru.Inv(e.lru) && Lru.Legal(e.lru, Lru.Get(1, other))
      && var f := Handled(e, Lru.Get(1, other)); Inv(f) && Refines(f, disk) && !Refines(f, disk[key := bytes])
  {
    assert Lru.Holders(d.lru.handles, 0) == {0};
    Lru.StepOk(d.lru, Lru.EndDrop(0));
    var e := Handled(d, Lru.EndDrop(0));
    assert e.lru.handles == map[];
    assert Lru.Holders(e.lru.handles, 0) == {};
    assert e.lru.list == [Lru.Node(Some(key), 0)] && Lru.Counted(e.lru.refs, e.lru.handles, e.lru.list[0].slot);
    Lru.StepOk(e.lru, Lru.Get(1, other));
    Lru.AllKnown(e.lru);
    var f := Handled(e, Lru.Get(1, other));
    assert f.lru.list == [Lru.Node(Some(other), 0)];
    assert 1 in Lru.Holders(f.lru.handles, 0);
    assert Absent(f.lru.list, key);
  }

  // ----- one slot, updated in place -----

  class BlockData {
    var index: nat
    var valid: bool
    var dirty: bool
    var bytes: Block

    ghost function Abs(): Data
      reads this
    {
      Data(index, valid, dirty, bytes)
    }

    /** Fresh slot data stands for the disk, under any key. */
    constructor (size: nat)
      ensures Abs() == Data(0, false, true, seq(size, _ => 0))
      ensures forall key, disk: map<nat, Block> {:trigger Coherent(key, Abs(), disk, disk)} ::
        key in disk ==> Coherent(key, Abs(), disk, disk)
    {
      index, valid, dirty, bytes := 0, false, true, seq(size, _ => 0);
    }

    /** The part of `BlockRef::lock` that runs under the slot's mutex: the data of another block is never taken for
        that of `key`, and no store under `key` is lost. */
    method Lock(key: nat)
      modifies this
      ensures Abs() == Relabel(old(Abs()), key) && index == key && (valid ==> old(index) == key)
      ensures forall device: map<nat, Block>, m: map<nat, Block> {:trigger Coherent(key, old(Abs()), device, m)} ::
        Coherent(key, old(Abs()), device, m) ==> Coherent(key, Abs(), device, m)
    {
      if index != key {
        index := key;
        valid := false;
      }
    }

    method Read(device: map<nat, Block>) returns (data: Block)
      requires index in device
      modifies this
      ensures index == old(index) && Abs() == Validated(old(Abs()), device[index]) && data == bytes
      ensures forall m: map<nat, Block> ::
        Coherent(index, old(Abs()), device, m) ==> data == m[index] && Coherent(index, Abs(), device, m)
    {
      if !valid {
        valid, dirty := true, false;
        bytes := device[index];
      }
      data := bytes;
    }

    method SetData(data: Block)
      modifies this
      ensures Abs() == Data(old(index), true, true, data)
      ensures forall device: map<nat, Block>, m: map<nat, Block>
        {:trigger Coherent(old(index), old(Abs()), device, m)} ::
        Coherent(old(index), old(Abs()), device, m) ==> Coherent(index, Abs(), device, m[index := data])
    {
      valid, dirty, bytes := true, true, data;
    }

    method Write(device: map<nat, Block>) returns (device': map<nat, Block>)
      requires valid
      modifies this
      ensures Abs() == old(Abs()).(dirty := false) && device' == device[index := bytes]
      ensures forall m: map<nat, Block> {:trigger Coherent(old(index), old(Abs()), device, m)} ::
        Coherent(old(index), old(Abs()), device, m) ==> Coherent(index, Abs(), device', m)
    {
      device' := device[index := bytes];
      dirty := false;
    }
  }
}
