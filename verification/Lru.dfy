/** The least-recently-used map with pinning: slots are re-keyed in place, counted references pin them. */
module Lru {
  import opened Options

  /** A list node: the key and the slot (the shared allocation holding the value). */
  datatype Node = Node(key: Option<nat>, slot: nat)

  /** A live `LruValue`; `dropping` once its promotion has run and only its reference is left to give back. */
  datatype Handle = Handle(key: nat, slot: nat, dropping: bool)

  /** `refs` holds the strong counts. `stamp` and `clock` only record when a slot was last released. */
  datatype State = State(list: seq<Node>, refs: map<nat, nat>, handles: map<nat, Handle>,
                         stamp: map<nat, nat>, clock: nat)

  // ----- searching -----

  /** Index of the first node with the key, or the length. */
  function KeyIndex(list: seq<Node>, key: nat): (i: nat)
    ensures i <= |list| && (i < |list| ==> list[i].key == Some(key))
    ensures forall j :: 0 <= j < i ==> list[j].key != Some(key)
  {
    if list == [] then 0 else if list[0].key == Some(key) then 0 else
    var i := KeyIndex(list[1..], key);
    assert forall j :: 0 < j < 1 + i ==> list[j] == list[1..][j - 1];
    1 + i
  }

  predicate Known(list: seq<Node>, refs: map<nat, nat>) {
    forall i {:trigger list[i]} :: 0 <= i < |list| ==> list[i].slot in refs
  }

  /** Index of the last node nobody holds a reference to. */
  function VictimIndex(list: seq<Node>, refs: map<nat, nat>): (r: Option<nat>)
    requires Known(list, refs)
    ensures r.Some? ==>
      r.value < |list| && refs[list[r.value].slot] == 1 && forall j :: r.value < j < |list| ==> refs[list[j].slot] != 1
    ensures r.None? ==> forall j :: 0 <= j < |list| ==> refs[list[j].slot] != 1
  {
    if list == [] then None
    else if refs[list[|list| - 1].slot] == 1 then Some(|list| - 1)
    else VictimIndex(list[..|list| - 1], refs)
  }

  /** The list with node `i` moved to the front. */
  function Front(list: seq<Node>, i: nat): seq<Node>
    requires i < |list|
  {
    [list[i]] + list[..i] + list[i + 1..]
  }

  // ----- operations -----

  /** Where a `get` lands: the node with the key, else the victim re-keyed in place. */
  function Place(list: seq<Node>, refs: map<nat, nat>, key: nat): (r: Option<nat>)
    requires Known(list, refs)
  {
    if KeyIndex(list, key) < |list| then Some(KeyIndex(list, key)) else VictimIndex(list, refs)
  }

  datatype Op =
    | Get(h: nat, key: nat)
    | Clone(from: nat, h: nat)
    | StartDrop(h: nat)
    | EndDrop(h: nat)

  ghost predicate Legal(s: State, op: Op) {
    match op
    case Get(h, key) => h !in s.handles
    case Clone(from, h) => h !in s.handles && from in s.handles && !s.handles[from].dropping
    case StartDrop(h) => h in s.handles && !s.handles[h].dropping
    case EndDrop(h) => h in s.handles && s.handles[h].dropping
  }

  function GetStep(s: State, h: nat, key: nat): State
    requires Known(s.list, s.refs)
  {
    match Place(s.list, s.refs, key)
    case None => s
    case Some(i) =>
      if i < |s.list| then
        var slot := s.list[i].slot;
        s.(list := s.list[i := Node(Some(key), slot)], refs := s.refs[slot := s.refs[slot] + 1],
           handles := s.handles[h := Handle(key, slot, false)])
      else s
  }

  /** `promote`: only if the key is present. */
  function Promoted(list: seq<Node>, key: nat): seq<Node> {
    if KeyIndex(list, key) < |list| then Front(list, KeyIndex(list, key)) else list
  }

  function StartDropStep(s: State, h: nat): State
    requires h in s.handles
  {
    var v := s.handles[h];
    s.(list := Promoted(s.list, v.key), handles := s.handles[h := v.(dropping := true)],
       stamp := s.stamp[v.slot := s.clock + 1], clock := s.clock + 1)
  }

  function Step(s: State, op: Op): State
    requires Inv(s) && Legal(s, op)
  {
    match op
    case Get(h, key) => AllKnown(s); GetStep(s, h, key)
    case Clone(from, h) =>
      var v := s.handles[from];
      s.(refs := s.refs[v.slot := s.refs[v.slot] + 1], handles := s.handles[h := v])
    case StartDrop(h) => StartDropStep(s, h)
    case EndDrop(h) =>
      var v := s.handles[h];
      s.(refs := s.refs[v.slot := s.refs[v.slot] - 1], handles := s.handles - {h})
  }

  // ----- invariant -----

  ghost predicate Distinct(list: seq<Node>) {
    forall i, j {:trigger list[i], list[j]} :: 0 <= i < j < |list| ==>
      list[i].slot != list[j].slot && (list[i].key.None? || list[i].key != list[j].key)
  }

  ghost predicate Recent(list: seq<Node>, stamp: map<nat, nat>, clock: nat) {
    && (forall i {:trigger list[i]} :: 0 <= i < |list| ==> list[i].slot in stamp && stamp[list[i].slot] <= clock)
    && forall i, j {:trigger list[i], list[j]} :: 0 <= i < j < |list| ==> After(stamp, list[i].slot, list[j].slot)
  }

  /** `a` was released after `b`; slots never released come last. */
  ghost predicate After(stamp: map<nat, nat>, a: nat, b: nat) {
    a in stamp && b in stamp && (stamp[a] > stamp[b] || stamp[a] == stamp[b] == 0)
  }

  ghost function Holders(handles: map<nat, Handle>, slot: nat): set<nat> {
    set h | h in handles && handles[h].slot == slot
  }

  /** The strong count is the list's own reference plus one per live handle. */
  ghost predicate Counted(refs: map<nat, nat>, handles: map<nat, Handle>, slot: nat) {
    slot in refs && refs[slot] == 1 + |Holders(handles, slot)|
  }

  ghost predicate CountsOk(list: seq<Node>, refs: map<nat, nat>, handles: map<nat, Handle>) {
    forall i {:trigger list[i]} :: 0 <= i < |list| ==> Counted(refs, handles, list[i].slot)
  }

  /** A handle's slot is in the list under the handle's key. */
  ghost predicate Held(list: seq<Node>, v: Handle) {
    Node(Some(v.key), v.slot) in list
  }

  ghost predicate HandlesOk(list: seq<Node>, handles: map<nat, Handle>) {
    forall h {:trigger handles[h]} :: h in handles ==> Held(list, handles[h])
  }

  ghost predicate Inv(s: State) {
    Distinct(s.list) && Recent(s.list, s.stamp, s.clock) && CountsOk(s.list, s.refs, s.handles) &&
    HandlesOk(s.list, s.handles)
  }

  // ----- preservation -----

  lemma HoldersAdd(handles: map<nat, Handle>, h: nat, v: Handle, slot: nat)
    requires h !in handles
    ensures |Holders(handles[h := v], slot)| == |Holders(handles, slot)| + if v.slot == slot then 1 else 0
  {
    var more := handles[h := v];
    assert Holders(more, slot) == if v.slot == slot then Holders(handles, slot) + {h} else Holders(handles, slot);
  }

  lemma HoldersRemove(handles: map<nat, Handle>, h: nat, slot: nat)
    requires h in handles
    ensures |Holders(handles - {h}, slot)| == |Holders(handles, slot)| - if handles[h].slot == slot then 1 else 0
  {
    var fewer := handles - {h};
    assert Holders(fewer, slot) ==
      if handles[h].slot == slot then Holders(handles, slot) - {h} else Holders(handles, slot);
  }

  lemma HoldersSame(handles: map<nat, Handle>, h: nat, v: Handle, slot: nat)
    requires h in handles && v.slot == handles[h].slot
    ensures Holders(handles[h := v], slot) == Holders(handles, slot)
  {
  }

  /** Where a node of the reordered list came from. */
  function Source(i: nat, a: nat): nat {
    if a == 0 then i else if a <= i then a - 1 else a
  }

  lemma FrontAt(list: seq<Node>, i: nat, a: nat)
    requires i < |list| && a < |list|
    ensures |Front(list, i)| == |list| && Source(i, a) < |list| && Front(list, i)[a] == list[Source(i, a)]
  {
  }

  lemma FrontMembers(list: seq<Node>, i: nat, n: Node)
    requires i < |list|
    ensures n in Front(list, i) <==> n in list
  {
    if n in list {
      var j :| 0 <= j < |list| && list[j] == n;
      FrontAt(list, i, if j == i then 0 else if j < i then j + 1 else j);
    }
  }

  /** A handle's key leads to its own slot. */
  lemma KeyLeadsToSlot(list: seq<Node>, v: Handle)
    requires Distinct(list) && Held(list, v)
    ensures KeyIndex(list, v.key) < |list| && list[KeyIndex(list, v.key)] == Node(Some(v.key), v.slot)
  {
    var j :| 0 <= j < |list| && list[j] == Node(Some(v.key), v.slot);
    var i := KeyIndex(list, v.key);
    assert i <= j;
  }

  lemma FrontDistinct(list: seq<Node>, i: nat)
    requires i < |list| && Distinct(list)
    ensures Distinct(Front(list, i))
  {
    var list' := Front(list, i);
    forall a, b {:trigger list'[a], list'[b]} | 0 <= a < b < |list'|
      ensures list'[a].slot != list'[b].slot && (list'[a].key.None? || list'[a].key != list'[b].key)
    {
      FrontAt(list, i, a);
      FrontAt(list, i, b);
    }
  }

  /** Moving the slot just released to the front keeps the order of release. */
  lemma FrontRecent(list: seq<Node>, i: nat, stamp: map<nat, nat>, clock: nat)
    requires i < |list| && Distinct(list) && Recent(list, stamp, clock)
    ensures Recent(Front(list, i), stamp[list[i].slot := clock + 1], clock + 1)
  {
    var list', stamp' := Front(list, i), stamp[list[i].slot := clock + 1];
    forall a {:trigger list'[a]} | 0 <= a < |list'|
      ensures list'[a].slot in stamp' && stamp'[list'[a].slot] <= clock + 1
    {
      FrontAt(list, i, a);
    }
    forall a, b {:trigger list'[a], list'[b]} | 0 <= a < b < |list'|
      ensures After(stamp', list'[a].slot, list'[b].slot)
    {
      FrontAt(list, i, a);
      FrontAt(list, i, b);
    }
  }

  lemma StartDropOk(s: State, h: nat)
    requires Inv(s) && h in s.handles && !s.handles[h].dropping
    ensures Inv(StartDropStep(s, h))
  {
    hide Distinct, Recent, Front, KeyIndex;
    var v, s' := s.handles[h], StartDropStep(s, h);
    assert Held(s.list, v);
    KeyLeadsToSlot(s.list, v);
    var i := KeyIndex(s.list, v.key);
    FrontDistinct(s.list, i);
    FrontRecent(s.list, i, s.stamp, s.clock);
    forall a {:trigger s'.list[a]} | 0 <= a < |s'.list| ensures Counted(s'.refs, s'.handles, s'.list[a].slot) {
      FrontMembers(s.list, i, s'.list[a]);
      HoldersSame(s.handles, h, v.(dropping := true), s'.list[a].slot);
    }
    forall g {:trigger s'.handles[g]} | g in s'.handles ensures Held(s'.list, s'.handles[g]) {
      FrontMembers(s.list, i, Node(Some(s'.handles[g].key), s'.handles[g].slot));
      assert Held(s.list, s.handles[g]);
    }
  }

  lemma EndDropOk(s: State, h: nat)
    requires Inv(s) && Legal(s, EndDrop(h))
    ensures Inv(Step(s, EndDrop(h)))
  {
    var s' := Step(s, EndDrop(h));
    forall a {:trigger s'.list[a]} | 0 <= a < |s'.list| ensures Counted(s'.refs, s'.handles, s'.list[a].slot) {
      HoldersRemove(s.handles, h, s'.list[a].slot);
    }
  }

  lemma CloneOk(s: State, from: nat, h: nat)
    requires Inv(s) && Legal(s, Clone(from, h))
    ensures Inv(Step(s, Clone(from, h)))
  {
    var s' := Step(s, Clone(from, h));
    assert Held(s.list, s.handles[from]);
    forall a {:trigger s'.list[a]} | 0 <= a < |s'.list| ensures Counted(s'.refs, s'.handles, s'.list[a].slot) {
      HoldersAdd(s.handles, h, s.handles[from], s'.list[a].slot);
    }
  }

  /** A slot without references is named by no handle, so re-keying it disturbs none. */
  lemma RekeyKeepsHandles(s: State, i: nat, key: nat)
    requires Inv(s) && i < |s.list| && (s.list[i].key == Some(key) || s.refs[s.list[i].slot] == 1)
    ensures HandlesOk(s.list[i := Node(Some(key), s.list[i].slot)], s.handles)
  {
    var list' := s.list[i := Node(Some(key), s.list[i].slot)];
    forall g {:trigger s.handles[g]} | g in s.handles ensures Held(list', s.handles[g]) {
      var v := s.handles[g];
      assert Held(s.list, v);
      var j :| 0 <= j < |s.list| && s.list[j] == Node(Some(v.key), v.slot);
      assert Counted(s.refs, s.handles, s.list[i].slot);
      assert g in Holders(s.handles, v.slot);
      assert list'[j] == s.list[j];
    }
  }

  lemma RekeyedList(list: seq<Node>, i: nat, key: nat, stamp: map<nat, nat>, clock: nat)
    requires Distinct(list) && Recent(list, stamp, clock) && i < |list|
    requires list[i].key == Some(key) || KeyIndex(list, key) == |list|
    ensures Distinct(list[i := Node(Some(key), list[i].slot)])
    ensures Recent(list[i := Node(Some(key), list[i].slot)], stamp, clock)
  {
    var list' := list[i := Node(Some(key), list[i].slot)];
    assert forall a :: 0 <= a < |list| ==> list'[a].slot == list[a].slot;
  }

  lemma AllKnown(s: State)
    requires Inv(s)
    ensures Known(s.list, s.refs)
  {
    hide Distinct, Recent, Holders;
    assert forall i {:trigger s.list[i]} :: 0 <= i < |s.list| ==> Counted(s.refs, s.handles, s.list[i].slot);
  }

  lemma GetOk(s: State, h: nat, key: nat)
    requires Inv(s) && h !in s.handles
    ensures Known(s.list, s.refs) && Inv(GetStep(s, h, key))
  {
    hide Distinct, Recent, KeyIndex;
    AllKnown(s);
    var r := Place(s.list, s.refs, key);
    if r.Some? {
      var i, s' := r.value, GetStep(s, h, key);
      RekeyKeepsHandles(s, i, key);
      RekeyedList(s.list, i, key, s.stamp, s.clock);
      var v := Handle(key, s.list[i].slot, false);
      assert s'.list[i] == Node(Some(key), v.slot) && Held(s'.list, v);
      forall a {:trigger s'.list[a]} | 0 <= a < |s'.list| ensures Counted(s'.refs, s'.handles, s'.list[a].slot) {
        HoldersAdd(s.handles, h, v, s.list[a].slot);
        assert s'.list[a].slot == s.list[a].slot;
      }
    }
  }

  // ----- whole runs -----

  lemma StepOk(s: State, op: Op)
    requires Inv(s) && Legal(s, op)
    ensures Inv(Step(s, op))
  {
    match op
    case Get(h, key) => GetOk(s, h, key);
    case Clone(from, h) => CloneOk(s, from, h);
    case StartDrop(h) => StartDropOk(s, h);
    case EndDrop(h) => EndDropOk(s, h);
  }

  ghost predicate LegalRun(s: State, ops: seq<Op>)
    requires Inv(s)
    decreases |ops|
  {
    ops == [] || (Legal(s, ops[0]) && (StepOk(s, ops[0]); LegalRun(Step(s, ops[0]), ops[1..])))
  }

  ghost function Run(s: State, ops: seq<Op>): State
    requires Inv(s) && LegalRun(s, ops)
    decreases |ops|
  {
    if ops == [] then s else StepOk(s, ops[0]); Run(Step(s, ops[0]), ops[1..])
  }

  /** `LruMap::new`: `size` slots, none keyed. */
  function Fresh(size: nat): (s: State)
    ensures |s.list| == size && s.handles == map[] && s.clock == 0
    ensures forall i {:trigger s.list[i]} ::
      0 <= i < size ==> s.list[i] == Node(None, i) && i in s.refs && s.refs[i] == 1 && i in s.stamp && s.stamp[i] == 0
  {
    if size == 0 then State([], map[], map[], map[], 0)
    else
      var s, i := Fresh(size - 1), size - 1;
      State(s.list + [Node(None, i)], s.refs[i := 1], map[], s.stamp[i := 0], 0)
  }

  lemma FreshOk(size: nat)
    ensures Inv(Fresh(size))
  {
    hide Fresh;
    var s := Fresh(size);
    forall i {:trigger s.list[i]} | 0 <= i < size ensures Counted(s.refs, s.handles, s.list[i].slot) {
      assert Holders(s.handles, s.list[i].slot) == {};
    }
  }

  /** In every run live handles share a slot exactly when their keys match, and no two slots have one key. */
  lemma {:induction false} RunOk(s: State, ops: seq<Op>)
    requires Inv(s) && LegalRun(s, ops)
    ensures Inv(Run(s, ops))
    ensures var t := Run(s, ops);
      forall g, h {:trigger t.handles[g], t.handles[h]} :: g in t.handles && h in t.handles ==>
        (t.handles[g].slot == t.handles[h].slot <==> t.handles[g].key == t.handles[h].key)
    decreases |ops|
  {
    hide Distinct, Recent, CountsOk, Step;
    if ops == [] {
      forall g, h {:trigger s.handles[g], s.handles[h]} | g in s.handles && h in s.handles
        ensures s.handles[g].slot == s.handles[h].slot <==> s.handles[g].key == s.handles[h].key
      {
        Sharing(s.list, s.handles[g], s.handles[h]);
      }
    } else {
      StepOk(s, ops[0]);
      RunOk(Step(s, ops[0]), ops[1..]);
    }
  }

  lemma Sharing(list: seq<Node>, v: Handle, w: Handle)
    requires Distinct(list) && Held(list, v) && Held(list, w)
    ensures v.slot == w.slot <==> v.key == w.key
  {
    var i :| 0 <= i < |list| && list[i] == Node(Some(v.key), v.slot);
    var j :| 0 <= j < |list| && list[j] == Node(Some(w.key), w.slot);
  }

  /** No step re-keys a slot that a handle still refers to, unless it drops that very reference. */
  lemma ReferencedSlotKeepsKey(s: State, op: Op, h: nat)
    requires Inv(s) && Legal(s, op) && h in s.handles && op != EndDrop(h)
    ensures Inv(Step(s, op)) && h in Step(s, op).handles
    ensures Step(s, op).handles[h].key == s.handles[h].key && Step(s, op).handles[h].slot == s.handles[h].slot
    ensures Held(Step(s, op).list, s.handles[h])
  {
    hide Distinct, Recent, CountsOk, KeyIndex, Place, Promoted;
    StepOk(s, op);
    assert Held(Step(s, op).list, Step(s, op).handles[h]);
  }

  /** A miss takes the unreferenced slot that was released longest ago; it fails only if every slot is referenced. */
  lemma VictimIsLeastRecent(s: State, h: nat, key: nat)
    requires Inv(s) && h !in s.handles && KeyIndex(s.list, key) == |s.list|
    ensures Known(s.list, s.refs)
    ensures h !in GetStep(s, h, key).handles <==>
      forall i {:trigger s.list[i]} :: 0 <= i < |s.list| ==> Holders(s.handles, s.list[i].slot) != {}
    ensures h in GetStep(s, h, key).handles ==> var slot := GetStep(s, h, key).handles[h].slot;
      && Holders(s.handles, slot) == {}
      && forall i {:trigger s.list[i]} ::
           0 <= i < |s.list| && s.list[i].slot != slot && Holders(s.handles, s.list[i].slot) == {} ==>
           After(s.stamp, s.list[i].slot, slot)
  {
    hide KeyIndex, VictimIndex, Distinct, HandlesOk;
    AllKnown(s);
    forall i {:trigger s.list[i]} | 0 <= i < |s.list|
      ensures s.list[i].slot in s.refs && (s.refs[s.list[i].slot] == 1 <==> Holders(s.handles, s.list[i].slot) == {})
    {
      assert Counted(s.refs, s.handles, s.list[i].slot);
    }
    hide CountsOk, Holders;
    var r := VictimIndex(s.list, s.refs);
    if r.Some? { assert s.refs[s.list[r.value].slot] == 1; }
  }

  /** The key is cached, or some slot is not referenced. */
  ghost predicate Available(s: State, key: nat) {
    exists i {:trigger s.list[i]} :: 0 <= i < |s.list| &&
      (s.list[i].key == Some(key) || Holders(s.handles, s.list[i].slot) == {})
  }

  /** Nobody holds the slot exactly when its count is the list's own. */
  lemma Unreferenced(s: State, i: nat)
    requires Inv(s) && i < |s.list|
    ensures s.list[i].slot in s.refs && (s.refs[s.list[i].slot] == 1 <==> Holders(s.handles, s.list[i].slot) == {})
  {
    hide Distinct, Recent, HandlesOk;
    assert Counted(s.refs, s.handles, s.list[i].slot);
  }

  /** A hit hands out the slot that has the key and counts one reference more; nothing else changes. */
  lemma HitShares(s: State, h: nat, key: nat, i: nat)
    requires Inv(s) && h !in s.handles && i < |s.list| && s.list[i].key == Some(key)
    ensures Known(s.list, s.refs) && s.list[i].slot in s.refs
    ensures GetStep(s, h, key) ==
      s.(refs := s.refs[s.list[i].slot := s.refs[s.list[i].slot] + 1],
         handles := s.handles[h := Handle(key, s.list[i].slot, false)])
  {
    hide Recent, HandlesOk, CountsOk;
    AllKnown(s);
    var j := KeyIndex(s.list, key);
    assert j <= i;
    assert j == i;
    assert s.list[i := Node(Some(key), s.list[i].slot)] == s.list;
  }

  /** A miss re-keys one unreferenced slot in place; a lookup fails exactly if there is none, and changes nothing. */
  lemma GetFinds(s: State, h: nat, key: nat)
    requires Inv(s) && h !in s.handles
    ensures Known(s.list, s.refs)
    ensures h in GetStep(s, h, key).handles <==> Available(s, key)
    ensures !Available(s, key) ==> GetStep(s, h, key) == s
    ensures (forall i {:trigger s.list[i]} :: 0 <= i < |s.list| ==> s.list[i].key != Some(key)) && Available(s, key) ==>
      exists j {:trigger s.list[j]} :: 0 <= j < |s.list| && Holders(s.handles, s.list[j].slot) == {} &&
        var slot := s.list[j].slot;
        slot in s.refs && GetStep(s, h, key) ==
          s.(list := s.list[j := Node(Some(key), slot)], refs := s.refs[slot := s.refs[slot] + 1],
             handles := s.handles[h := Handle(key, slot, false)])
  {
    hide Recent, HandlesOk, CountsOk, KeyIndex, VictimIndex, Distinct, Inv, Holders;
    AllKnown(s);
    var k, v := KeyIndex(s.list, key), VictimIndex(s.list, s.refs);
    forall i: nat | i < |s.list|
      ensures s.list[i].slot in s.refs && (s.refs[s.list[i].slot] == 1 <==> Holders(s.handles, s.list[i].slot) == {})
    {
      Unreferenced(s, i);
    }
    if k < |s.list| {
      assert s.list[k].key == Some(key);
    } else if v.Some? {
      assert Holders(s.handles, s.list[v.value].slot) == {};
    }
  }

  /** Both at once, as `get` needs them. */
  lemma GetDone(s: State, h: nat, key: nat)
    requires Inv(s) && h !in s.handles
    ensures Known(s.list, s.refs)
    ensures h !in GetStep(s, h, key).handles <==> forall i {:trigger s.list[i]} :: 0 <= i < |s.list| ==>
      s.list[i].key != Some(key) && Holders(s.handles, s.list[i].slot) != {}
    ensures h !in GetStep(s, h, key).handles ==> GetStep(s, h, key) == s
    ensures forall i {:trigger s.list[i]} :: 0 <= i < |s.list| && s.list[i].key == Some(key) ==>
      && s.list[i].slot in s.refs
      && GetStep(s, h, key) == s.(refs := s.refs[s.list[i].slot := s.refs[s.list[i].slot] + 1],
                                  handles := s.handles[h := Handle(key, s.list[i].slot, false)])
  {
    hide Inv, KeyIndex, VictimIndex, Holders, GetStep;
    GetFinds(s, h, key);
    forall i: nat {:trigger s.list[i]} | i < |s.list| && s.list[i].key == Some(key)
      ensures s.list[i].slot in s.refs
      ensures GetStep(s, h, key) == s.(refs := s.refs[s.list[i].slot := s.refs[s.list[i].slot] + 1],
                                      handles := s.handles[h := Handle(key, s.list[i].slot, false)])
    {
      HitShares(s, h, key, i);
    }
  }

  /** Dropping a handle: it is gone, its slot has one reference less and comes first, the others follow in their
      order. */
  lemma DropReleases(s: State, h: nat, i: nat)
    requires Inv(s) && Legal(s, StartDrop(h)) && i < |s.list| && s.list[i].slot == s.handles[h].slot
    ensures var s1 := Step(s, StartDrop(h));
      && Inv(s1) && Legal(s1, EndDrop(h)) && s.list[i].slot in s.refs && 1 < s.refs[s.list[i].slot]
      && var s2 := Step(s1, EndDrop(h)); var slot := s.list[i].slot;
         && s2.handles == s.handles - {h} && s2.refs == s.refs[slot := s.refs[slot] - 1]
         && s2.list == [s.list[i]] + s.list[..i] + s.list[i + 1..]
  {
    hide Inv, KeyIndex, Holders;
    StartDropOk(s, h);
    var v := s.handles[h];
    HandleAt(s, h, i);
    assert s.handles[h := v.(dropping := true)] - {h} == s.handles - {h};
  }

  /** The key of a handle leads to its slot, which counts the handle. */
  lemma HandleAt(s: State, h: nat, i: nat)
    requires Inv(s) && h in s.handles && i < |s.list| && s.list[i].slot == s.handles[h].slot
    ensures KeyIndex(s.list, s.handles[h].key) == i && s.list[i].slot in s.refs && 1 < s.refs[s.list[i].slot]
  {
    hide Recent, KeyIndex;
    var v := s.handles[h];
    assert Held(s.list, v);
    KeyLeadsToSlot(s.list, v);
    assert KeyIndex(s.list, v.key) == i;
    assert Counted(s.refs, s.handles, s.list[i].slot) && h in Holders(s.handles, v.slot);
  }

  // ----- what the operations alone tell -----

  ghost function KeyHeld(handles: map<nat, Handle>, h: nat): Option<nat> {
    if h in handles then Some(handles[h].key) else None
  }

  ghost function KeyAfter(s: State, op: Op, h: nat, now: Option<nat>): Option<nat>
    requires Legal(s, op)
  {
    match op
    case Get(g, key) => if g == h && Available(s, key) then Some(key) else now
    case Clone(from, g) => if g == h then Some(s.handles[from].key) else now
    case StartDrop(_) => now
    case EndDrop(g) => if g == h then None else now
  }

  /** The key handle `h` stands for after `ops`: the one it was looked up with, or that of the handle it was cloned
      from, until it is dropped. */
  ghost function LastKey(s: State, ops: seq<Op>, h: nat, now: Option<nat>): Option<nat>
    requires Inv(s) && LegalRun(s, ops)
    decreases |ops|
  {
    if ops == [] then now
    else
      StepOk(s, ops[0]);
      LastKey(Step(s, ops[0]), ops[1..], h, KeyAfter(s, ops[0], h, now))
  }

  /** How many handles had been released when one on `slot` was last released, that one included; 0 if none ever was. */
  ghost function LastRelease(s: State, ops: seq<Op>, slot: nat, n: nat, now: nat): nat
    requires Inv(s) && LegalRun(s, ops)
    decreases |ops|
  {
    if ops == [] then now
    else
      StepOk(s, ops[0]);
      var released := ops[0].StartDrop?;
      LastRelease(Step(s, ops[0]), ops[1..], slot, if released then n + 1 else n,
                  if released && s.handles[ops[0].h].slot == slot then n + 1 else now)
  }

  lemma StepTells(s: State, op: Op, h: nat, slot: nat)
    requires Inv(s) && Legal(s, op)
    ensures KeyHeld(Step(s, op).handles, h) == KeyAfter(s, op, h, KeyHeld(s.handles, h))
    ensures Step(s, op).clock == s.clock + if op.StartDrop? then 1 else 0
    ensures slot in s.stamp ==>
      slot in Step(s, op).stamp &&
      Step(s, op).stamp[slot] ==
        if op.StartDrop? && s.handles[op.h].slot == slot then s.clock + 1 else s.stamp[slot]
  {
    hide Inv, Promoted, Place, Available;
    if op.Get? {
      GetFinds(s, op.h, op.key);
    }
  }

  /** In every run the handles there are and their keys, and the order in which slots were released, are what the
      operations say. */
  lemma {:induction false} OperationsTell(s: State, ops: seq<Op>, h: nat, slot: nat)
    requires Inv(s) && LegalRun(s, ops) && slot in s.stamp
    ensures KeyHeld(Run(s, ops).handles, h) == LastKey(s, ops, h, KeyHeld(s.handles, h))
    ensures slot in Run(s, ops).stamp
    ensures Run(s, ops).stamp[slot] == LastRelease(s, ops, slot, s.clock, s.stamp[slot])
    decreases |ops|
  {
    hide Inv, Step, KeyHeld, KeyAfter;
    if ops != [] {
      StepOk(s, ops[0]);
      StepTells(s, ops[0], h, slot);
      OperationsTell(Step(s, ops[0]), ops[1..], h, slot);
    }
  }

  ghost predicate HasSlot(list: seq<Node>, slot: nat) {
    exists i {:trigger list[i]} :: 0 <= i < |list| && list[i].slot == slot
  }

  lemma StepSlots(s: State, op: Op, slot: nat)
    requires Inv(s) && Legal(s, op) && HasSlot(Step(s, op).list, slot)
    ensures HasSlot(s.list, slot)
  {
    hide Inv, KeyIndex, VictimIndex;
    var list' := Step(s, op).list;
    var i :| 0 <= i < |list'| && list'[i].slot == slot;
    if op.Get? {
      assert |list'| == |s.list| && s.list[i].slot == slot;
    } else if op.StartDrop? && KeyIndex(s.list, s.handles[op.h].key) < |s.list| {
      FrontAt(s.list, KeyIndex(s.list, s.handles[op.h].key), i);
    }
  }

  lemma {:induction false} SlotsKept(s: State, ops: seq<Op>, slot: nat)
    requires Inv(s) && LegalRun(s, ops) && HasSlot(Run(s, ops).list, slot)
    ensures HasSlot(s.list, slot)
    decreases |ops|
  {
    hide Inv, Step, HasSlot;
    if ops != [] {
      StepOk(s, ops[0]);
      SlotsKept(Step(s, ops[0]), ops[1..], slot);
      StepSlots(s, ops[0], slot);
    }
  }

  /** From a fresh map, after any run: a miss takes an unreferenced slot, and one whose last release lies furthest back
      in the operations, or that was never released. */
  lemma RecyclesLongestReleased(size: nat, ops: seq<Op>, h: nat, key: nat, i: nat)
    requires Inv(Fresh(size)) && LegalRun(Fresh(size), ops)
    requires var t := Run(Fresh(size), ops);
      && Inv(t) && h !in t.handles && KeyIndex(t.list, key) == |t.list| && Available(t, key)
      && i < |t.list| && Holders(t.handles, t.list[i].slot) == {}
    ensures var t := Run(Fresh(size), ops);
      && Known(t.list, t.refs) && h in GetStep(t, h, key).handles
      && var slot := GetStep(t, h, key).handles[h].slot;
      && Holders(t.handles, slot) == {}
      && (slot == t.list[i].slot ||
          LastRelease(Fresh(size), ops, slot, 0, 0) < LastRelease(Fresh(size), ops, t.list[i].slot, 0, 0) ||
          LastRelease(Fresh(size), ops, slot, 0, 0) == 0)
  {
    var s, t := Fresh(size), Run(Fresh(size), ops);
    hide Inv, LegalRun, Run, LastRelease, LastKey, Fresh, GetStep, KeyIndex, Available, Holders;
    GetFinds(t, h, key);
    VictimIsLeastRecent(t, h, key);
    var slot := GetStep(t, h, key).handles[h].slot;
    SlotsKept(s, ops, slot);
    SlotsKept(s, ops, t.list[i].slot);
    OperationsTell(s, ops, h, slot);
    OperationsTell(s, ops, h, t.list[i].slot);
  }

  // ----- the data structure -----

  class LruMap {
    var list: seq<Node>
    var refs: map<nat, nat>
    ghost var handles: map<nat, Handle>
    ghost var stamp: map<nat, nat>
    ghost var clock: nat

    ghost function Abs(): State
      reads this
    {
      State(list, refs, handles, stamp, clock)
    }

    ghost predicate Valid()
      reads this
    {
      Inv(Abs())
    }

    constructor (size: nat)
      ensures Valid() && Abs() == Fresh(size)
    {
      list, refs, handles, stamp, clock := [], map[], map[], map[], 0;
      new;
      var i := 0;
      while i < size
        invariant i <= size && Abs() == Fresh(i)
      {
        list, refs, stamp := list + [Node(None, i)], refs[i := 1], stamp[i := 0];
        i := i + 1;
      }
      FreshOk(size);
    }

    /** The forward search of `get` and `promote`. */
    method FindKey(key: nat) returns (i: nat)
      ensures i == KeyIndex(list, key)
    {
      i := 0;
      while i < |list| && list[i].key != Some(key)
        invariant i <= |list| && forall j :: 0 <= j < i ==> list[j].key != Some(key)
      {
        i := i + 1;
      }
    }

    /** The backward search of `get`. */
    method FindVictim() returns (r: Option<nat>)
      requires Known(list, refs)
      ensures r == VictimIndex(list, refs)
    {
      hide VictimIndex;
      var n := |list|;
      while n > 0
        invariant 0 <= n <= |list| && forall j :: n <= j < |list| ==> refs[list[j].slot] != 1
      {
        n := n - 1;
        if refs[list[n].slot] == 1 { return Some(n); }
      }
      r := None;
    }

    /** `get`; `h` names the handle returned. */
    method Get(key: nat, ghost h: nat) returns (r: Option<nat>)
      requires Valid() && h !in handles
      modifies this
      ensures Valid() && Known(old(list), old(refs)) && Abs() == GetStep(old(Abs()), h, key)
      ensures r.None? ==> h !in handles
      ensures r.Some? ==> h in handles && handles[h] == Handle(key, r.value, false)
      ensures r.None? <==> forall i {:trigger old(list)[i]} :: 0 <= i < |old(list)| ==>
        old(list)[i].key != Some(key) && Holders(old(handles), old(list)[i].slot) != {}
      ensures r.None? ==> list == old(list) && refs == old(refs)
      ensures forall i {:trigger old(list)[i]} :: 0 <= i < |old(list)| && old(list)[i].key == Some(key) ==>
        r == Some(old(list)[i].slot) && list == old(list) && r.value in old(refs) &&
        refs == old(refs)[r.value := old(refs)[r.value] + 1]
    {
      hide Inv, KeyIndex, VictimIndex, Holders;
      AllKnown(Abs());
      GetOk(Abs(), h, key);
      GetDone(Abs(), h, key);
      var i := FindKey(key);
      var place := Some(i);
      if i == |list| { place := FindVictim(); }
      match place
      case None => r := None;
      case Some(j) =>
        var slot := list[j].slot;
        list, refs := list[j := Node(Some(key), slot)], refs[slot := refs[slot] + 1];
        handles := handles[h := Handle(key, slot, false)];
        r := Some(slot);
    }

    /** The `Drop` of a handle: promotion under the list's lock. */
    method Promote(ghost h: nat, key: nat)
      requires Valid() && h in handles && !handles[h].dropping && handles[h].key == key
      modifies this
      ensures Valid() && Abs() == StartDropStep(old(Abs()), h)
    {
      hide Inv, KeyIndex;
      StartDropOk(Abs(), h);
      var i := FindKey(key);
      if i < |list| { list := [list[i]] + list[..i] + list[i + 1..]; }
      ghost var v := handles[h];
      handles, stamp, clock := handles[h := v.(dropping := true)], stamp[v.slot := clock + 1], clock + 1;
    }
  }
}
