/** The group-commit log: admission, the steps of a commit, what they keep over every run, and what a restart
    after a crash finds. */
module Log {
  import opened Common
  import opened Options
  import opened Blocks

  const MAX_OP_BLOCKS: nat := 10
  const LOG_SIZE: nat := 30
  const MAX_LOG_COUNT: nat := 255
  const NBUF: nat := 30

  /** The content of a disk block. */
  type Sector = b: Block | |b| == BLOCK_SIZE witness Zero()

  // ----- the header block -----

  function Numbered(b: Sector, ix: seq<nat>, n: nat): Sector
    requires n <= |ix| <= MAX_LOG_COUNT
  {
    if n == 0 then b else SetWord(Numbered(b, ix, n - 1), n, ix[n - 1])
  }

  /** The header that lists the blocks `ix`: their number, then the block numbers. */
  function Encode(ix: seq<nat>): Sector
    requires |ix| <= MAX_LOG_COUNT
  {
    Numbered(SetWord(Zero(), 0, |ix|), ix, |ix|)
  }

  /** `block_indices`: a count that the block has no room for fails. */
  function Decode(b: Sector): Option<seq<nat>> {
    var n := Word(b, 0);
    if n > MAX_LOG_COUNT then None else Some(seq(n, i requires 0 <= i < n => Word(b, i + 1)))
  }

  ghost predicate Numbers32(ix: seq<nat>) {
    forall i {:trigger ix[i]} :: 0 <= i < |ix| ==> ix[i] < 0x1_0000_0000
  }

  lemma {:induction false} NumberedWord(b: Sector, ix: seq<nat>, n: nat, j: nat)
    requires n <= |ix| <= MAX_LOG_COUNT && Numbers32(ix) && j < WORDS
    ensures Word(Numbered(b, ix, n), j) == if 0 < j <= n then ix[j - 1] else Word(b, j)
    decreases n
  {
    hide Word, SetWord;
    if n > 0 {
      NumberedWord(b, ix, n - 1, j);
      SetWordGet(Numbered(b, ix, n - 1), n, ix[n - 1], j);
    }
  }

  /** What the header says is what was written to it. */
  lemma HeaderRoundTrip(ix: seq<nat>)
    requires |ix| <= MAX_LOG_COUNT && Numbers32(ix)
    ensures Decode(Encode(ix)) == Some(ix)
  {
    hide Word, SetWord, Numbered, Zero;
    forall j: nat | j <= |ix| ensures Word(Encode(ix), j) == if j == 0 then |ix| else ix[j - 1] {
      NumberedWord(SetWord(Zero(), 0, |ix|), ix, |ix|, j);
      SetWordGet(Zero(), 0, |ix|, j);
    }
    assert Decode(Encode(ix)).value == ix;
  }

  // ----- the log and the disk -----

  /** Progress of the thread that took the header away to commit it. */
  datatype Stage = Body(i: nat) | Head | Install(k: nat) | Erase | Return

  datatype Phase = Open | Committing(stage: Stage)

  /** `blocks` is the in-memory header, which in phase `Committing` is owned by one thread. `used` counts, for
      each running transaction, the blocks it was the first to log. `held` says which transaction holds the
      guard of a block. `cache` is the content clients see, `dirty` the blocks changed since last written. */
  datatype State = State(phase: Phase, blocks: seq<nat>, used: map<nat, nat>, held: map<nat, nat>,
                         cache: map<nat, Sector>, dirty: set<nat>, disk: map<nat, Sector>)

  /** The part of the super block the log needs. */
  datatype Layout = Layout(logstart: nat)

  /** `nlog` equals `LOG_SIZE`; every other block is a home block. Block numbers have 32 bits. */
  predicate Home(l: Layout, b: nat) {
    (b < l.logstart || l.logstart + LOG_SIZE <= b) && b < 0x1_0000_0000
  }

  datatype Op =
    | Begin(t: nat)
    | Acquire(t: nat, b: nat)
    | Modify(t: nat, b: nat, bytes: Sector)
    | Release(t: nat, b: nat)
    | End(t: nat)
    | CommitStep

  datatype Result = Ok(s: State) | Panic

  // ----- steps -----

  /** When a step can be taken; a transaction that may not begin waits. */
  ghost predicate Enabled(l: Layout, s: State, op: Op) {
    match op
    case Begin(t) => t !in s.used && s.phase.Open? && |s.blocks| + (|s.used| + 1) * MAX_OP_BLOCKS <= LOG_SIZE
    case Acquire(t, b) => t in s.used && b !in s.held && b in s.cache && Home(l, b)
    case Modify(t, b, bytes) => b in s.held && s.held[b] == t && b in s.cache
    case Release(t, b) => b in s.held && s.held[b] == t && t in s.used
    case End(t) => t in s.used && t !in s.held.Values
    case CommitStep => s.phase.Committing?
  }

  /** `LogHeader::push` under `Log::write`: full, missing or idle logs fail an assertion. */
  ghost function Push(s: State, t: nat, b: nat): Result
    requires t in s.used
  {
    if !s.phase.Open? || |s.used| == 0 || |s.blocks| >= LOG_SIZE then Panic
    else if b in s.blocks then Ok(s)
    else Ok(s.(blocks := s.blocks + [b], used := s.used[t := s.used[t] + 1]))
  }

  /** `end_op`: the last transaction takes the header away. */
  ghost function EndStep(s: State, t: nat): Result
    requires t in s.used
  {
    var used' := s.used - {t};
    if !s.phase.Open? then Panic
    else if |used'| == 0 then Ok(s.(used := used', phase := Committing(if s.blocks == [] then Return else Body(0))))
    else Ok(s.(used := used'))
  }

  /** One device write, or the return of the header, of `LogHeader::commit`. */
  ghost function Commit(l: Layout, s: State): State
    requires s.phase.Committing? && |s.blocks| <= LOG_SIZE && forall b :: b in s.blocks ==> b in s.cache
  {
    match s.phase.stage
    case Body(i) =>
      if i < |s.blocks| then
        s.(disk := s.disk[l.logstart + i := s.cache[s.blocks[i]]], phase := Committing(Body(i + 1)))
      else s.(phase := Committing(Head))
    case Head => s.(disk := s.disk[l.logstart := Encode(s.blocks)], phase := Committing(Install(0)))
    case Install(k) =>
      if k < |s.blocks| then
        var b := s.blocks[k];
        s.(disk := s.disk[b := s.cache[b]], dirty := s.dirty - {b}, phase := Committing(Install(k + 1)))
      else s.(blocks := [], phase := Committing(Erase))
    case Erase => s.(disk := s.disk[l.logstart := Encode(s.blocks)], phase := Committing(Return))
    case Return => s.(phase := Open)
  }

  ghost function Step(l: Layout, s: State, op: Op): Result
    requires Inv(l, s) && Enabled(l, s, op)
  {
    match op
    case Begin(t) => Ok(s.(used := s.used[t := 0]))
    case Acquire(t, b) => Ok(s.(held := s.held[b := t]))
    case Modify(t, b, bytes) => Ok(s.(cache := s.cache[b := bytes], dirty := s.dirty + {b}))
    case Release(t, b) =>
      var s' := s.(held := s.held - {b});
      if b in s.dirty then Push(s', t, b) else Ok(s')
    case End(t) => EndStep(s, t)
    case CommitStep => if NoBuffer(s) then Panic else Ok(Commit(l, s))
  }

  /** The logged blocks pin every buffer of the cache, so none is left for the copy of the first one. */
  predicate NoBuffer(s: State) {
    s.phase == Committing(Body(0)) && |s.blocks| >= NBUF
  }

  // ----- the space set aside -----

  ghost function Pick(used: map<nat, nat>): nat
    requires used != map[]
    ensures Pick(used) in used
  {
    var t :| t in used; t
  }

  /** Blocks the running transactions may still add. */
  ghost function Reserve(used: map<nat, nat>): int
    decreases |used|
  {
    if used == map[] then 0 else
    var t := Pick(used);
    assert (used - {t}).Keys == used.Keys - {t};
    MAX_OP_BLOCKS - used[t] + Reserve(used - {t})
  }

  lemma {:induction false} ReserveWithout(used: map<nat, nat>, t: nat)
    requires t in used
    ensures Reserve(used) == MAX_OP_BLOCKS - used[t] + Reserve(used - {t})
    decreases |used|
  {
    var p := Pick(used);
    if p != t {
      assert (used - {p}).Keys == used.Keys - {p} && (used - {t}).Keys == used.Keys - {t};
      ReserveWithout(used - {p}, t);
      ReserveWithout(used - {t}, p);
      assert used - {p} - {t} == used - {t} - {p};
    }
  }

  lemma ReserveSet(used: map<nat, nat>, t: nat, n: nat)
    ensures Reserve(used[t := n]) == MAX_OP_BLOCKS - n + Reserve(used - {t})
  {
    ReserveWithout(used[t := n], t);
    assert used[t := n] - {t} == used - {t};
  }

  ghost predicate WithinBudget(used: map<nat, nat>) {
    forall t {:trigger used[t]} :: t in used ==> used[t] <= MAX_OP_BLOCKS
  }

  /** Every running transaction has added fewer blocks than it announced, and a commit has a buffer to copy with. */
  ghost predicate Thrifty(s: State) {
    (s.phase.Committing? ==> |s.blocks| < NBUF) &&
    forall t {:trigger s.used[t]} :: t in s.used ==> s.used[t] < MAX_OP_BLOCKS
  }

  lemma {:induction false} ReserveBounds(used: map<nat, nat>)
    requires WithinBudget(used)
    ensures 0 <= Reserve(used) <= MAX_OP_BLOCKS * |used|
    decreases |used|
  {
    if used != map[] {
      var t := Pick(used);
      assert (used - {t}).Keys == used.Keys - {t};
      ReserveBounds(used - {t});
    }
  }

  // ----- invariant -----

  ghost predicate Clean(b: nat, cache: map<nat, Sector>, disk: map<nat, Sector>) {
    b in cache && b in disk && disk[b] == cache[b]
  }

  /** Installed already in the commit under way. */
  ghost predicate Installed(phase: Phase, blocks: seq<nat>, b: nat) {
    phase.Committing? && phase.stage.Install? &&
    b in blocks[..if phase.stage.k <= |blocks| then phase.stage.k else |blocks|]
  }

  /** A block whose home differs from what clients see is dirty, and logged or still held. */
  ghost predicate BlockOk(s: State, b: nat) {
    && (b !in s.dirty ==> Clean(b, s.cache, s.disk))
    && (b in s.dirty ==> b in s.cache && (b in s.held || (b in s.blocks && !Installed(s.phase, s.blocks, b))))
  }

  ghost predicate StageOk(s: State) {
    match s.phase
    case Open => s.used == map[] ==> s.blocks == []
    case Committing(stage) =>
      && s.used == map[]
      && (stage.Body? || stage.Head? ==> s.blocks != [])
      && (stage.Body? ==> stage.i <= |s.blocks|)
      && ((stage.Body? && stage.i > 0) || stage.Head? || stage.Install? ==> |s.blocks| < NBUF)
      && (stage.Install? ==> stage.k <= |s.blocks|)
      && (stage.Erase? || stage.Return? ==> s.blocks == [])
  }

  /** What the header block holds. Body slot 0 is the same block. */
  ghost predicate HeaderOk(l: Layout, s: State) {
    && |s.blocks| <= LOG_SIZE && l.logstart in s.disk
    && match s.phase
       case Open => s.disk[l.logstart] == Encode([])
       case Committing(Body(i)) =>
         s.blocks != [] && s.blocks[0] in s.cache &&
         s.disk[l.logstart] == if i == 0 then Encode([]) else s.cache[s.blocks[0]]
       case Committing(Head) =>
         s.blocks != [] && s.blocks[0] in s.cache && s.disk[l.logstart] == s.cache[s.blocks[0]]
       case Committing(Install(_)) => s.disk[l.logstart] == Encode(s.blocks)
       case Committing(Erase) => Replayable(l, s.disk)
       case Committing(Return) => s.disk[l.logstart] == Encode([])
  }

  ghost predicate Inv(l: Layout, s: State) {
    && WithinBudget(s.used) && |s.blocks| <= LOG_SIZE && |s.blocks| + Reserve(s.used) <= LOG_SIZE
    && Spread(s.blocks) && (forall b {:trigger b in s.blocks} :: b in s.blocks ==> Home(l, b) && b in s.cache)
    && (forall b {:trigger b in s.held} :: b in s.held ==> s.held[b] in s.used && Home(l, b) && b in s.cache)
    && (forall b {:trigger b in s.cache} :: b in s.cache && Home(l, b) ==> BlockOk(s, b))
    && (forall b {:trigger b in s.dirty} :: b in s.dirty ==> Home(l, b) && b in s.cache)
    && s.cache.Keys <= s.disk.Keys && StageOk(s) && HeaderOk(l, s)
  }

  /** The step logs a block for the first time. */
  ghost predicate Adds(s: State, op: Op) {
    op.Release? && op.b in s.dirty && op.b !in s.blocks
  }

  /** The announced budget: a transaction adds at most `MAX_OP_BLOCKS` blocks. */
  ghost predicate Legal(l: Layout, s: State, op: Op) {
    Enabled(l, s, op) && (Adds(s, op) ==> s.used[op.t] + 1 <= MAX_OP_BLOCKS)
  }

  /** One block less. */
  ghost predicate Frugal(l: Layout, s: State, op: Op) {
    Enabled(l, s, op) && (Adds(s, op) ==> s.used[op.t] + 1 < MAX_OP_BLOCKS)
  }

  // ----- preservation -----

  /** Admission leaves room for everything the new transaction may add. */
  lemma BeginReserve(used: map<nat, nat>, t: nat, n: nat)
    requires t !in used && WithinBudget(used) && n + (|used| + 1) * MAX_OP_BLOCKS <= LOG_SIZE
    ensures n + Reserve(used[t := 0]) <= LOG_SIZE && WithinBudget(used[t := 0])
  {
    hide Reserve;
    ReserveSet(used, t, 0);
    assert used - {t} == used;
    ReserveBounds(used);
  }

  lemma BeginOk(l: Layout, s: State, t: nat)
    requires Inv(l, s) && Legal(l, s, Begin(t))
    ensures Step(l, s, Begin(t)).Ok? && Inv(l, Step(l, s, Begin(t)).s)
  {
    hide Reserve, Spread, Encode;
    var s' := Step(l, s, Begin(t)).s;
    BeginReserve(s.used, t, |s.blocks|);
    forall b {:trigger b in s'.cache} | b in s'.cache && Home(l, b) ensures BlockOk(s', b) { assert BlockOk(s, b); }
  }

  lemma AcquireOk(l: Layout, s: State, t: nat, b: nat)
    requires Inv(l, s) && Legal(l, s, Acquire(t, b))
    ensures Step(l, s, Acquire(t, b)).Ok? && Inv(l, Step(l, s, Acquire(t, b)).s)
  {
    hide Reserve, Spread, Encode;
    var s' := Step(l, s, Acquire(t, b)).s;
    forall c {:trigger c in s'.cache} | c in s'.cache && Home(l, c) ensures BlockOk(s', c) { assert BlockOk(s, c); }
  }

  lemma ModifyOk(l: Layout, s: State, t: nat, b: nat, bytes: Sector)
    requires Inv(l, s) && Legal(l, s, Modify(t, b, bytes))
    ensures Step(l, s, Modify(t, b, bytes)).Ok? && Inv(l, Step(l, s, Modify(t, b, bytes)).s)
  {
    hide Reserve, Spread, Encode;
    var s' := Step(l, s, Modify(t, b, bytes)).s;
    forall c {:trigger c in s'.cache} | c in s'.cache && Home(l, c)
      ensures BlockOk(s', c)
    {
      assert c in s.cache && BlockOk(s, c);
    }
  }

  /** A transaction that has not used up its budget finds room in the log. */
  lemma RoomForOne(l: Layout, s: State, t: nat)
    requires Inv(l, s) && t in s.used
    ensures s.phase.Open? && 0 < |s.used|
    ensures s.used[t] < MAX_OP_BLOCKS ==> |s.blocks| < LOG_SIZE
  {
    hide Reserve;
    assert s.used != map[];
    ReserveWithout(s.used, t);
    ReserveBounds(s.used - {t});
  }

  /** A release fails exactly when its block is dirty and the log is full; the block may be in it already. */
  lemma ReleasePanicsIff(l: Layout, s: State, t: nat, b: nat)
    requires Inv(l, s) && Enabled(l, s, Release(t, b))
    ensures Step(l, s, Release(t, b)).Panic? <==> b in s.dirty && |s.blocks| == LOG_SIZE
  {
    hide Reserve;
    RoomForOne(l, s, t);
    ReserveBounds(s.used);
  }

  /** The log is full only when every running transaction has spent its whole budget. */
  lemma FullMeansSpent(l: Layout, s: State, t: nat)
    requires Inv(l, s) && |s.blocks| == LOG_SIZE && t in s.used
    ensures s.used[t] == MAX_OP_BLOCKS
  {
    hide Reserve;
    RoomForOne(l, s, t);
  }

  lemma ReleaseOk(l: Layout, s: State, t: nat, b: nat)
    requires Inv(l, s) && Legal(l, s, Release(t, b)) && Step(l, s, Release(t, b)).Ok?
    ensures Inv(l, Step(l, s, Release(t, b)).s)
  {
    hide Reserve;
    RoomForOne(l, s, t);
    var s' := Step(l, s, Release(t, b)).s;
    assert s.held[b] == t;
    if b in s.dirty && b !in s.blocks {
      ReserveSet(s.used, t, s.used[t] + 1);
      ReserveWithout(s.used, t);
    }
    forall c {:trigger c in s'.cache} | c in s'.cache && Home(l, c)
      ensures BlockOk(s', c)
    {
      assert c in s.cache && BlockOk(s, c);
    }
  }

  lemma EndOk(l: Layout, s: State, t: nat)
    requires Inv(l, s) && Legal(l, s, End(t))
    ensures Step(l, s, End(t)).Ok? && Inv(l, Step(l, s, End(t)).s)
  {
    hide Reserve, Spread, Encode;
    RoomForOne(l, s, t);
    ReserveWithout(s.used, t);
    assert s.used[t] <= MAX_OP_BLOCKS;
    var s' := Step(l, s, End(t)).s;
    assert s.blocks != [] ==> s.blocks[0] in s.blocks;
    forall b {:trigger b in s'.held} | b in s'.held ensures s'.held[b] in s'.used { assert s.held[b] in s.held.Values; }
    forall c {:trigger c in s'.cache} | c in s'.cache && Home(l, c) ensures BlockOk(s', c) { assert BlockOk(s, c); }
  }

  /** While a commit runs no block is held, every home block is clean or waits in the log. */
  lemma Quiet(l: Layout, s: State, c: nat)
    requires Inv(l, s) && s.phase.Committing? && c in s.cache && Home(l, c)
    ensures c !in s.held && |s.blocks| <= LOG_SIZE
    ensures c !in s.dirty ==> Clean(c, s.cache, s.disk)
    ensures c in s.dirty ==> c in s.blocks && !Installed(s.phase, s.blocks, c)
  {
    assert Reserve(map[]) == 0;
    assert BlockOk(s, c);
  }

  lemma CommitBlockOk(l: Layout, s: State, c: nat)
    requires Inv(l, s) && s.phase.Committing? && c in s.cache && Home(l, c)
    ensures BlockOk(Commit(l, s), c)
  {
    Quiet(l, s, c);
    hide Inv, Reserve;
    if s.phase.stage.Install? {
      var k := s.phase.stage.k;
      if k < |s.blocks| { InstallFacts(l, s, c); } else { assert s.blocks[..|s.blocks|] == s.blocks; }
    }
  }

  lemma InstallFacts(l: Layout, s: State, c: nat)
    requires Inv(l, s) && s.phase.Committing? && s.phase.stage.Install? && s.phase.stage.k < |s.blocks|
    ensures c in s.blocks[..s.phase.stage.k + 1] <==> c in s.blocks[..s.phase.stage.k] || c == s.blocks[s.phase.stage.k]
  {
    PrefixGrows(s.blocks, s.phase.stage.k, c);
  }

  lemma EmptySpread()
    ensures Spread([])
  {
  }

  /** The commit begins exactly when a buffer is left; from then on each step keeps the invariant. */
  lemma CommitOk(l: Layout, s: State)
    requires Inv(l, s) && s.phase.Committing? && !NoBuffer(s)
    ensures Inv(l, Commit(l, s))
  {
    hide Reserve, BlockOk, Spread, Replayable, Encode;
    EmptySpread();
    if s.phase.stage.Install? { HeaderReplayable(l, s); }
    var s' := Commit(l, s);
    forall c {:trigger c in s'.cache} | c in s'.cache && Home(l, c) ensures BlockOk(s', c) { CommitBlockOk(l, s, c); }
    assert forall b :: b in s.blocks ==> Home(l, b);
    assert s.blocks != [] ==> s.blocks[0] in s.blocks;
    assert s.phase.stage.Install? && s.phase.stage.k < |s.blocks| ==> s.blocks[s.phase.stage.k] in s.blocks;
  }

  lemma PrefixGrows(blocks: seq<nat>, k: nat, c: nat)
    requires k < |blocks| && Spread(blocks)
    ensures c in blocks[..k + 1] <==> c in blocks[..k] || c == blocks[k]
    ensures blocks[k] !in blocks[..k]
  {
    assert blocks[..k + 1] == blocks[..k] + [blocks[k]];
  }

  /** Only the assertion in `push` and the first buffer of a commit can fail; every other step keeps the invariant. */
  lemma StepOk(l: Layout, s: State, op: Op)
    requires Inv(l, s) && Legal(l, s, op)
    ensures Step(l, s, op).Ok? ==> Inv(l, Step(l, s, op).s)
    ensures Step(l, s, op).Panic? <==>
      (op.Release? && op.b in s.dirty && |s.blocks| == LOG_SIZE) || (op.CommitStep? && NoBuffer(s))
  {
    hide Inv, Push, EndStep, NoBuffer;
    match op
    case Begin(t) => BeginOk(l, s, t);
    case Acquire(t, b) => AcquireOk(l, s, t, b);
    case Modify(t, b, bytes) => ModifyOk(l, s, t, b, bytes);
    case Release(t, b) =>
      ReleasePanicsIff(l, s, t, b);
      if Step(l, s, op).Ok? { ReleaseOk(l, s, t, b); }
    case End(t) => EndOk(l, s, t);
    case CommitStep => if !NoBuffer(s) { CommitOk(l, s); }
  }

  /** With one block to spare per transaction nothing fails, and there stays one to spare. */
  lemma FrugalStepOk(l: Layout, s: State, op: Op)
    requires Inv(l, s) && Thrifty(s) && Frugal(l, s, op)
    ensures Step(l, s, op).Ok? && Inv(l, Step(l, s, op).s) && Thrifty(Step(l, s, op).s)
  {
    hide Inv, Reserve, BlockOk, Commit;
    if op.Release? || op.End? { RoomForOne(l, s, op.t); }
    StepOk(l, s, op);
    if op.CommitStep? { CommitIdle(l, s); }
  }

  lemma CommitIdle(l: Layout, s: State)
    requires Inv(l, s) && s.phase.Committing?
    ensures Commit(l, s).used == s.used == map[] && |Commit(l, s).blocks| <= |s.blocks|
  {
  }

  // ----- whole runs -----

  /** Each step is possible and within the announced budget; nothing follows a failed assertion. */
  ghost predicate LegalRun(l: Layout, s: State, ops: seq<Op>)
    requires Inv(l, s)
    decreases |ops|
  {
    ops == [] ||
    (Legal(l, s, ops[0]) &&
     (Step(l, s, ops[0]).Ok? ==> (StepOk(l, s, ops[0]); LegalRun(l, Step(l, s, ops[0]).s, ops[1..]))))
  }

  ghost function Run(l: Layout, s: State, ops: seq<Op>): Result
    requires Inv(l, s) && LegalRun(l, s, ops)
    decreases |ops|
  {
    if ops == [] then Ok(s)
    else
      match Step(l, s, ops[0])
      case Panic => Panic
      case Ok(s') => StepOk(l, s, ops[0]); Run(l, s', ops[1..])
  }

  lemma {:induction false} RunKeeps(l: Layout, s: State, ops: seq<Op>)
    requires Inv(l, s) && LegalRun(l, s, ops)
    ensures Run(l, s, ops).Ok? ==> Inv(l, Run(l, s, ops).s)
    decreases |ops|
  {
    hide Inv, Step, Enabled;
    if ops != [] {
      StepOk(l, s, ops[0]);
      if Step(l, s, ops[0]).Ok? { RunKeeps(l, Step(l, s, ops[0]).s, ops[1..]); }
    }
  }

  ghost predicate FrugalRun(l: Layout, s: State, ops: seq<Op>)
    requires Inv(l, s) && Thrifty(s)
    decreases |ops|
  {
    ops == [] ||
    (Frugal(l, s, ops[0]) && (FrugalStepOk(l, s, ops[0]); FrugalRun(l, Step(l, s, ops[0]).s, ops[1..])))
  }

  /** No interleaving of transactions that each add fewer than `MAX_OP_BLOCKS` blocks fails an assertion. */
  lemma {:induction false} RunOk(l: Layout, s: State, ops: seq<Op>)
    requires Inv(l, s) && Thrifty(s) && FrugalRun(l, s, ops)
    ensures LegalRun(l, s, ops) && Run(l, s, ops).Ok? && Inv(l, Run(l, s, ops).s)
    decreases |ops|
  {
    hide Inv, Step, Thrifty;
    if ops != [] {
      FrugalStepOk(l, s, ops[0]);
      RunOk(l, Step(l, s, ops[0]).s, ops[1..]);
    }
  }

  lemma {:induction false} RunSnoc(l: Layout, s: State, ops: seq<Op>, op: Op)
    requires Inv(l, s) && LegalRun(l, s, ops) && Run(l, s, ops).Ok?
    requires Inv(l, Run(l, s, ops).s) && Legal(l, Run(l, s, ops).s, op)
    ensures LegalRun(l, s, ops + [op]) && Run(l, s, ops + [op]) == Step(l, Run(l, s, ops).s, op)
    decreases |ops|
  {
    hide Inv, Step, Enabled;
    if ops == [] {
      assert ops + [op] == [op];
    } else {
      StepOk(l, s, ops[0]);
      assert (ops + [op])[1..] == ops[1..] + [op];
      RunSnoc(l, Step(l, s, ops[0]).s, ops[1..], op);
    }
  }

  /** A log that starts afresh: nothing logged, nothing dirty, the cache agrees with the disk. */
  ghost predicate Started(l: Layout, s: State) {
    && s.phase == Open && s.blocks == [] && s.used == map[] && s.held == map[] && s.dirty == {}
    && s.cache.Keys <= s.disk.Keys && l.logstart in s.disk && s.disk[l.logstart] == Encode([])
    && forall b {:trigger b in s.cache} :: b in s.cache && Home(l, b) ==> Clean(b, s.cache, s.disk)
  }

  lemma StartedOk(l: Layout, s: State)
    requires Started(l, s)
    ensures Inv(l, s) && Thrifty(s)
  {
    hide Encode;
  }

  // ----- a run that fills the log -----

  ghost predicate Reaches(l: Layout, s: State, ops: seq<Op>, t: State) {
    Inv(l, s) && LegalRun(l, s, ops) && Run(l, s, ops) == Ok(t) && Inv(l, t)
  }

  lemma ReachesNext(l: Layout, s: State, ops: seq<Op>, t: State, op: Op)
    requires Reaches(l, s, ops, t) && Legal(l, t, op) && Step(l, t, op).Ok?
    ensures Reaches(l, s, ops + [op], Step(l, t, op).s)
  {
    hide Inv, Step, Enabled, LegalRun, Run;
    StepOk(l, t, op);
    RunSnoc(l, s, ops, op);
  }

  /** Blocks the transaction `t` has added when three of them have added `n` one after the other. */
  function Spent(n: nat, t: nat): nat {
    if n <= MAX_OP_BLOCKS * t then 0 else Min(MAX_OP_BLOCKS, n - MAX_OP_BLOCKS * t)
  }

  /** The log after three transactions have begun and added the first `n` blocks of `bs`. */
  ghost predicate Filled(bs: seq<nat>, n: nat, t: State) {
    && n <= |bs| && t.phase == Open && t.blocks == bs[..n] && t.held == map[]
    && t.used == map[0 := Spent(n, 0), 1 := Spent(n, 1), 2 := Spent(n, 2)]
    && (forall i {:trigger bs[i]} :: 0 <= i < n ==> bs[i] in t.dirty)
    && (forall i {:trigger bs[i]} :: 0 <= i < |bs| ==> bs[i] in t.cache)
  }

  /** Enough blocks to fill the log. */
  ghost predicate Plenty(l: Layout, bs: seq<nat>) {
    |bs| == LOG_SIZE && Spread(bs) && forall i {:trigger bs[i]} :: 0 <= i < |bs| ==> Home(l, bs[i])
  }

  function Add(t: nat, b: nat, x: Sector): seq<Op> {
    [Acquire(t, b), Modify(t, b, x), Release(t, b)]
  }

  function FillOps(bs: seq<nat>, x: Sector, n: nat): seq<Op>
    requires n <= |bs|
  {
    if n == 0 then [Begin(0), Begin(1), Begin(2)]
    else FillOps(bs, x, n - 1) + Add((n - 1) / MAX_OP_BLOCKS, bs[n - 1], x)
  }

  lemma AddReaches(l: Layout, s: State, ops: seq<Op>, t: State, tx: nat, b: nat, x: Sector) returns (t': State)
    requires Reaches(l, s, ops, t) && t.phase.Open? && tx in t.used && t.used[tx] < MAX_OP_BLOCKS
    requires Home(l, b) && b in t.cache && b !in t.blocks && t.held == map[]
    ensures Reaches(l, s, ops + Add(tx, b, x), t')
    ensures t' == t.(blocks := t.blocks + [b], used := t.used[tx := t.used[tx] + 1],
                      cache := t.cache[b := x], dirty := t.dirty + {b})
  {
    hide Inv, LegalRun, Run;
    RoomForOne(l, t, tx);
    ReachesNext(l, s, ops, t, Acquire(tx, b));
    var t1 := Step(l, t, Acquire(tx, b)).s;
    var ops1 := ops + [Acquire(tx, b)];
    ReachesNext(l, s, ops1, t1, Modify(tx, b, x));
    var t2 := Step(l, t1, Modify(tx, b, x)).s;
    var ops2 := ops1 + [Modify(tx, b, x)];
    ReachesNext(l, s, ops2, t2, Release(tx, b));
    t' := Step(l, t2, Release(tx, b)).s;
    assert t'.held == t.held;
    assert ops2 + [Release(tx, b)] == ops + Add(tx, b, x);
  }

  lemma OneBegins(l: Layout, s: State) returns (t: State)
    requires Started(l, s)
    ensures Reaches(l, s, [Begin(0)], t)
    ensures t.phase == Open && t.blocks == [] && t.used == map[0 := 0] && t.held == map[] && t.cache == s.cache
    ensures t.disk == s.disk
  {
    hide Inv;
    StartedOk(l, s);
    assert Reaches(l, s, [], s);
    hide LegalRun, Run;
    ReachesNext(l, s, [], s, Begin(0));
    assert [] + [Begin(0)] == [Begin(0)];
    t := Step(l, s, Begin(0)).s;
  }

  lemma ThreeBegin(l: Layout, s: State, bs: seq<nat>) returns (t: State)
    requires Started(l, s) && Plenty(l, bs) && forall i {:trigger bs[i]} :: 0 <= i < |bs| ==> bs[i] in s.cache
    ensures Reaches(l, s, [Begin(0), Begin(1), Begin(2)], t) && Filled(bs, 0, t)
  {
    hide Inv, LegalRun, Run, Spread, Plenty;
    var t1 := OneBegins(l, s);
    ReachesNext(l, s, [Begin(0)], t1, Begin(1));
    assert [Begin(0)] + [Begin(1)] == [Begin(0), Begin(1)];
    var t2 := Step(l, t1, Begin(1)).s;
    assert t2.used == map[0 := 0, 1 := 0];
    ReachesNext(l, s, [Begin(0), Begin(1)], t2, Begin(2));
    assert [Begin(0), Begin(1)] + [Begin(2)] == [Begin(0), Begin(1), Begin(2)];
    t := Step(l, t2, Begin(2)).s;
  }

  lemma FilledRoom(l: Layout, bs: seq<nat>, n: nat, t: State)
    requires Plenty(l, bs) && n < |bs| && Filled(bs, n, t)
    ensures t.phase.Open? && t.held == map[] && bs[n] in t.cache && bs[n] !in t.blocks && Home(l, bs[n])
    ensures n / MAX_OP_BLOCKS in t.used && t.used[n / MAX_OP_BLOCKS] < MAX_OP_BLOCKS
  {
  }

  lemma FilledNext(bs: seq<nat>, n: nat, x: Sector, t: State, t': State)
    requires n < |bs| == LOG_SIZE && Filled(bs, n, t) && n / MAX_OP_BLOCKS in t.used
    requires t' == t.(blocks := t.blocks + [bs[n]], used := t.used[n / MAX_OP_BLOCKS := t.used[n / MAX_OP_BLOCKS] + 1],
                      cache := t.cache[bs[n] := x], dirty := t.dirty + {bs[n]})
    ensures Filled(bs, n + 1, t')
  {
    assert bs[..n + 1] == bs[..n] + [bs[n]];
  }

  lemma {:induction false} FillRun(l: Layout, s: State, bs: seq<nat>, x: Sector, n: nat) returns (t: State)
    requires Started(l, s) && Plenty(l, bs) && n <= |bs|
    requires forall i {:trigger bs[i]} :: 0 <= i < |bs| ==> bs[i] in s.cache
    ensures Reaches(l, s, FillOps(bs, x, n), t) && Filled(bs, n, t)
    decreases n
  {
    hide Started, Reaches, Filled, Add;
    if n == 0 {
      t := ThreeBegin(l, s, bs);
    } else {
      var was := FillRun(l, s, bs, x, n - 1);
      FilledRoom(l, bs, n - 1, was);
      t := AddReaches(l, s, FillOps(bs, x, n - 1), was, (n - 1) / MAX_OP_BLOCKS, bs[n - 1], x);
      FilledNext(bs, n - 1, x, was, t);
    }
  }

  /** Three transactions that add ten blocks each, and the next release of a block that is logged already: within the
      announced budgets, an assertion fails. */
  lemma FullLogPanics(l: Layout, s: State, bs: seq<nat>, x: Sector)
    requires Started(l, s) && Plenty(l, bs) && forall i {:trigger bs[i]} :: 0 <= i < |bs| ==> bs[i] in s.cache
    ensures var ops := FillOps(bs, x, LOG_SIZE) + [Acquire(0, bs[0]), Release(0, bs[0])];
      Inv(l, s) && LegalRun(l, s, ops) && Run(l, s, ops).Panic?
  {
    hide Inv, LegalRun, Run, Spread, Started, FillOps;
    var ops := FillOps(bs, x, LOG_SIZE);
    var t := FillRun(l, s, bs, x, LOG_SIZE);
    assert bs[..LOG_SIZE] == bs;
    ReachesNext(l, s, ops, t, Acquire(0, bs[0]));
    var t1 := Step(l, t, Acquire(0, bs[0])).s;
    assert bs[0] in t1.dirty && bs[0] in bs;
    ReleasePanicsIff(l, t1, 0, bs[0]);
    RunSnoc(l, s, ops + [Acquire(0, bs[0])], Release(0, bs[0]));
    assert ops + [Acquire(0, bs[0])] + [Release(0, bs[0])] == ops + [Acquire(0, bs[0]), Release(0, bs[0])];
  }

  /** The commit of three transactions that added ten blocks each, all within their budgets, finds no buffer. */
  lemma FullCommitPanics(l: Layout, s: State, bs: seq<nat>, x: Sector)
    requires Started(l, s) && Plenty(l, bs) && forall i {:trigger bs[i]} :: 0 <= i < |bs| ==> bs[i] in s.cache
    ensures var ops := FillOps(bs, x, LOG_SIZE) + [End(0), End(1), End(2), CommitStep];
      Inv(l, s) && LegalRun(l, s, ops) && Run(l, s, ops).Panic?
  {
    hide Inv, LegalRun, Run, Spread, Started, FillOps;
    var ops := FillOps(bs, x, LOG_SIZE);
    var t := FillRun(l, s, bs, x, LOG_SIZE);
    assert bs[..LOG_SIZE] == bs;
    assert 2 in t.used - {0} && 2 in t.used - {0} - {1};
    var t1 := EndReaches(l, s, ops, t, 0);
    var t2 := EndReaches(l, s, ops + [End(0)], t1, 1);
    var ops2 := ops + [End(0)] + [End(1)];
    assert t2.used.Keys == {2};
    RoomForOne(l, t2, 2);
    assert t2.used - {2} == map[];
    ReachesNext(l, s, ops2, t2, End(2));
    var t3 := Step(l, t2, End(2)).s;
    RunSnoc(l, s, ops2 + [End(2)], CommitStep);
    assert ops2 + [End(2)] + [CommitStep] == ops + [End(0), End(1), End(2), CommitStep];
  }

  /** A transaction ends while another one runs. */
  lemma EndReaches(l: Layout, s: State, ops: seq<Op>, t: State, tx: nat) returns (t': State)
    requires Reaches(l, s, ops, t) && tx in t.used && t.held == map[] && t.used - {tx} != map[]
    ensures Reaches(l, s, ops + [End(tx)], t') && t' == t.(used := t.used - {tx})
  {
    hide Inv, LegalRun, Run;
    RoomForOne(l, t, tx);
    ReachesNext(l, s, ops, t, End(tx));
    t' := Step(l, t, End(tx)).s;
  }

  function OnDisk(disk: map<nat, Sector>, b: nat): Option<Sector> {
    if b in disk then Some(disk[b]) else None
  }

  /** One step of a commit changes a home block only by installing it. */
  lemma CommitTouches(l: Layout, s: State, b: nat)
    requires Inv(l, s) && s.phase.Committing? && Home(l, b) && OnDisk(Commit(l, s).disk, b) != OnDisk(s.disk, b)
    ensures s.phase.stage.Install? && s.used == map[] && b in s.blocks && b in s.cache
    ensures OnDisk(Commit(l, s).disk, b) == Some(s.cache[b])
  {
    assert Reserve(map[]) == 0;
    hide Reserve, BlockOk, Spread, HeaderOk;
  }

  /** Home blocks change on disk only while a commit installs them, and then no transaction is running. */
  lemma HomeWrittenOnlyByInstall(l: Layout, s: State, op: Op, b: nat)
    requires Inv(l, s) && Legal(l, s, op) && Home(l, b)
    requires Step(l, s, op).Ok? && OnDisk(Step(l, s, op).s.disk, b) != OnDisk(s.disk, b)
    ensures op.CommitStep? && s.phase.Committing? && s.phase.stage.Install? && s.used == map[]
    ensures b in s.blocks && b in s.cache && OnDisk(Step(l, s, op).s.disk, b) == Some(s.cache[b])
  {
    hide Inv, Commit, OnDisk;
    if op.CommitStep? { CommitTouches(l, s, b); }
  }

  /** Nothing begins, and no block is taken or changed, until the commit under way has ended. */
  lemma CommitExcludesTransactions(l: Layout, s: State, op: Op)
    requires Inv(l, s) && s.phase.Committing? && Legal(l, s, op)
    ensures op.CommitStep?
  {
  }

  /** When a commit ends, every home block holds what clients see and the log on disk is empty. */
  lemma CommitReachesDisk(l: Layout, s: State)
    requires Inv(l, s) && s.phase == Committing(Return)
    ensures Commit(l, s).phase == Open && Commit(l, s).disk[l.logstart] == Encode([]) && Commit(l, s).blocks == []
    ensures forall b {:trigger b in s.cache} :: b in s.cache && Home(l, b) ==> Clean(b, s.cache, Commit(l, s).disk)
  {
    forall b {:trigger b in s.cache} | b in s.cache && Home(l, b)
      ensures Clean(b, s.cache, Commit(l, s).disk)
    {
      Quiet(l, s, b);
    }
  }

  /** In every run that fails no assertion, whenever no transaction is running and no commit is under way, the disk
      holds everything clients see and the log on it is empty. */
  lemma DiskIsCurrentWhenIdle(l: Layout, s: State, ops: seq<Op>)
    requires Started(l, s) && Inv(l, s) && LegalRun(l, s, ops) && Run(l, s, ops).Ok?
    ensures var t := Run(l, s, ops).s;
      t.phase.Open? && t.used == map[] ==>
        && l.logstart in t.disk && Decode(t.disk[l.logstart]) == Some([])
        && forall b {:trigger b in t.cache} :: b in t.cache && Home(l, b) ==> Clean(b, t.cache, t.disk)
  {
    RunKeeps(l, s, ops);
    var t := Run(l, s, ops).s;
    hide Run, LegalRun, Reserve, Encode, Decode;
    HeaderRoundTrip([]);
    if t.phase.Open? && t.used == map[] {
      forall b {:trigger b in t.cache} | b in t.cache && Home(l, b)
        ensures Clean(b, t.cache, t.disk)
      {
        assert BlockOk(t, b);
      }
    }
  }

  // ----- what the operations alone tell -----

  /** The content of block `b` after `ops`: the bytes last given for it, `x` if there are none. */
  function LastGiven(x: Sector, ops: seq<Op>, b: nat): Sector
    decreases |ops|
  {
    if ops == [] then x
    else LastGiven(if ops[0].Modify? && ops[0].b == b then ops[0].bytes else x, ops[1..], b)
  }

  /** Who holds the guard of block `b` after `ops`: the last to acquire it, unless it was released since. */
  function LastHolder(h: Option<nat>, ops: seq<Op>, b: nat): Option<nat>
    decreases |ops|
  {
    if ops == [] then h
    else
      LastHolder(match ops[0]
                 case Acquire(t, c) => if c == b then Some(t) else h
                 case Release(_, c) => if c == b then None else h
                 case _ => h, ops[1..], b)
  }

  /** Transaction `t` has begun and not ended. */
  function Began(r: bool, ops: seq<Op>, t: nat): bool
    decreases |ops|
  {
    if ops == [] then r
    else Began(if ops[0] == Begin(t) then true else if ops[0] == End(t) then false else r, ops[1..], t)
  }

  function HolderOf(held: map<nat, nat>, b: nat): Option<nat> {
    if b in held then Some(held[b]) else None
  }

  lemma StepGives(l: Layout, s: State, op: Op, b: nat, t: nat)
    requires Inv(l, s) && Legal(l, s, op) && Step(l, s, op).Ok?
    ensures var s' := Step(l, s, op).s;
      && s'.cache.Keys == s.cache.Keys
      && (b in s.cache ==> s'.cache[b] == LastGiven(s.cache[b], [op], b))
      && HolderOf(s'.held, b) == LastHolder(HolderOf(s.held, b), [op], b)
      && (t in s'.used <==> Began(t in s.used, [op], t))
  {
    hide Inv, LastGiven, LastHolder, Began, Commit, Push, EndStep, NoBuffer;
    OneOp(op, if b in s.cache then s.cache[b] else Zero(), HolderOf(s.held, b), t in s.used, b, t);
    match op
    case Release(u, c) => PushKeeps(s.(held := s.held - {c}), u, c);
    case End(u) => EndKeeps(s, u);
    case CommitStep => CommitKeeps(l, s);
    case _ =>
  }

  lemma PushKeeps(s: State, t: nat, b: nat)
    requires t in s.used
    ensures Push(s, t, b).Ok? ==>
      var s' := Push(s, t, b).s; s'.cache == s.cache && s'.held == s.held && s'.used.Keys == s.used.Keys
  {
  }

  lemma EndKeeps(s: State, t: nat)
    requires t in s.used
    ensures EndStep(s, t).Ok? ==>
      var s' := EndStep(s, t).s; s'.cache == s.cache && s'.held == s.held && s'.used == s.used - {t}
  {
  }

  lemma OneOp(op: Op, x: Sector, h: Option<nat>, r: bool, b: nat, t: nat)
    ensures LastGiven(x, [op], b) == if op.Modify? && op.b == b then op.bytes else x
    ensures LastHolder(h, [op], b) ==
      if op.Acquire? && op.b == b then Some(op.t) else if op.Release? && op.b == b then None else h
    ensures Began(r, [op], t) == if op == Begin(t) then true else if op == End(t) then false else r
  {
    assert [op][1..] == [];
  }

  lemma CommitKeeps(l: Layout, s: State)
    requires Inv(l, s) && s.phase.Committing?
    ensures Commit(l, s).cache == s.cache && Commit(l, s).held == s.held && Commit(l, s).used == s.used
  {
  }

  lemma OneAtATime(x: Sector, h: Option<nat>, r: bool, ops: seq<Op>, b: nat, t: nat)
    requires ops != []
    ensures LastGiven(x, ops, b) == LastGiven(LastGiven(x, [ops[0]], b), ops[1..], b)
    ensures LastHolder(h, ops, b) == LastHolder(LastHolder(h, [ops[0]], b), ops[1..], b)
    ensures Began(r, ops, t) == Began(Began(r, [ops[0]], t), ops[1..], t)
  {
    assert [ops[0]][1..] == [];
  }

  /** In every run that fails no assertion, what clients see of a block, who holds it and which transactions run is what
      the operations say: the bytes last given, the last to acquire, begun and not ended. */
  lemma {:induction false} OperationsTell(l: Layout, s: State, ops: seq<Op>, b: nat, t: nat)
    requires Inv(l, s) && LegalRun(l, s, ops) && Run(l, s, ops).Ok?
    ensures var s' := Run(l, s, ops).s;
      && s'.cache.Keys == s.cache.Keys
      && (b in s.cache ==> s'.cache[b] == LastGiven(s.cache[b], ops, b))
      && HolderOf(s'.held, b) == LastHolder(HolderOf(s.held, b), ops, b)
      && (t in s'.used <==> Began(t in s.used, ops, t))
    decreases |ops|
  {
    hide Inv, Step, Enabled, HolderOf;
    if ops != [] {
      StepOk(l, s, ops[0]);
      StepGives(l, s, ops[0], b, t);
      OneAtATime(if b in s.cache then s.cache[b] else Zero(), HolderOf(s.held, b), t in s.used, ops, b, t);
      hide LastGiven, LastHolder, Began;
      OperationsTell(l, Step(l, s, ops[0]).s, ops[1..], b, t);
    }
  }

  /** So the disk, whenever the log is idle, holds in every home block the bytes last given for it, or what it held at
      the start. */
  lemma IdleDiskHoldsLastGiven(l: Layout, s: State, ops: seq<Op>, b: nat)
    requires Started(l, s) && Inv(l, s) && LegalRun(l, s, ops) && Run(l, s, ops).Ok? && b in s.cache && Home(l, b)
    requires Run(l, s, ops).s.phase.Open? && Run(l, s, ops).s.used == map[]
    ensures OnDisk(Run(l, s, ops).s.disk, b) == Some(LastGiven(s.disk[b], ops, b))
  {
    hide Inv, LegalRun, Run, LastGiven, LastHolder, Began, HolderOf, Decode;
    DiskIsCurrentWhenIdle(l, s, ops);
    OperationsTell(l, s, ops, b, 0);
    assert Clean(b, Run(l, s, ops).s.cache, Run(l, s, ops).s.disk) && Clean(b, s.cache, s.disk);
  }

  /** Device writes and bookkeeping steps a commit still has to take. */
  ghost function StepsLeft(s: State): nat
    requires StageOk(s)
  {
    match s.phase
    case Open => 0
    case Committing(Body(i)) => 2 * |s.blocks| - i + 5
    case Committing(Head) => |s.blocks| + 4
    case Committing(Install(k)) => |s.blocks| - k + 3
    case Committing(Erase) => 2
    case Committing(Return) => 1
  }

  lemma CommitAdvances(l: Layout, s: State)
    requires Inv(l, s) && s.phase.Committing? && !NoBuffer(s)
    ensures StageOk(Commit(l, s)) && StepsLeft(Commit(l, s)) == StepsLeft(s) - 1 && Commit(l, s).cache == s.cache
  {
    CommitOk(l, s);
  }

  // ----- the header object -----

  class LogHeader {
    const layout: Layout
    var blocks: seq<nat>
    var disk: map<nat, Sector>

    ghost predicate Valid(cache: map<nat, Sector>)
      reads this
    {
      && |blocks| <= LOG_SIZE && Spread(blocks)
      && forall i {:trigger blocks[i]} :: 0 <= i < |blocks| ==> Home(layout, blocks[i]) && blocks[i] in cache
    }

    constructor (l: Layout, disk: map<nat, Sector>)
      ensures layout == l && blocks == [] && this.disk == disk
    {
      layout, blocks, this.disk := l, [], disk;
    }

    /** `push`: absorbs a block that is logged already; `ok` is false where the assertion fails. */
    method Push(b: nat) returns (ok: bool)
      modifies this`blocks
      ensures ok <==> |old(blocks)| < LOG_SIZE
      ensures b !in old(blocks) && ok ==> blocks == old(blocks) + [b]
      ensures b in old(blocks) || !ok ==> blocks == old(blocks)
      ensures Spread(old(blocks)) ==> Spread(blocks)
    {
      ok := |blocks| < LOG_SIZE;
      if !ok { return; }
      var i := 0;
      while i < |blocks|
        invariant 0 <= i <= |blocks| && blocks == old(blocks) && forall j :: 0 <= j < i ==> blocks[j] != b
      {
        if blocks[i] == b { return; }
        i := i + 1;
      }
      blocks := blocks + [b];
    }

    /** `write_log_body`: it needs a buffer besides those the logged blocks pin. */
    method WriteLogBody(cache: map<nat, Sector>) returns (ok: bool)
      requires Valid(cache)
      modifies this`disk
      ensures ok <==> blocks == [] || |blocks| < NBUF
      ensures !ok ==> disk == old(disk)
      ensures forall b: nat {:trigger OnDisk(disk, b)} :: Home(layout, b) ==> OnDisk(disk, b) == OnDisk(old(disk), b)
      ensures ok ==> forall i: nat {:trigger blocks[i]} :: i < |blocks| ==>
        OnDisk(disk, layout.logstart + i) == Some(cache[blocks[i]])
    {
      var i := 0;
      while i < |blocks|
        invariant 0 <= i <= |blocks| && (i == 0 ==> disk == old(disk)) && (i > 0 ==> |blocks| < NBUF)
        invariant forall b: nat {:trigger OnDisk(disk, b)} ::
          Home(layout, b) ==> OnDisk(disk, b) == OnDisk(old(disk), b)
        invariant forall j: nat {:trigger blocks[j]} :: j < i ==>
          OnDisk(disk, layout.logstart + j) == Some(cache[blocks[j]])
      {
        if |blocks| >= NBUF { return false; }
        ghost var was := disk;
        disk := disk[layout.logstart + i := cache[blocks[i]]];
        assert forall b: nat {:trigger OnDisk(disk, b)} ::
            b != layout.logstart + i ==> OnDisk(disk, b) == OnDisk(was, b);
        i := i + 1;
      }
      ok := true;
    }

    /** `write_log_head`: a reader of the header block finds the logged blocks, and no other block has changed. */
    method WriteLogHead()
      requires |blocks| <= LOG_SIZE && Numbers32(blocks)
      modifies this`disk
      ensures disk == old(disk)[layout.logstart := Encode(blocks)]
      ensures Decode(disk[layout.logstart]) == Some(blocks)
      ensures forall b: nat {:trigger OnDisk(disk, b)} ::
        b != layout.logstart ==> OnDisk(disk, b) == OnDisk(old(disk), b)
    {
      var dst := SetWord(Zero(), 0, |blocks|);
      var i := 0;
      while i < |blocks|
        invariant 0 <= i <= |blocks| && |dst| == BLOCK_SIZE && dst == Numbered(SetWord(Zero(), 0, |blocks|), blocks, i)
      {
        dst := SetWord(dst, i + 1, blocks[i]);
        i := i + 1;
      }
      HeaderRoundTrip(blocks);
      disk := disk[layout.logstart := dst];
    }

    /** `install_transaction` with `cache` as what reading a block gives. */
    method InstallTransaction(cache: map<nat, Sector>)
      requires Spread(blocks) && forall i {:trigger blocks[i]} :: 0 <= i < |blocks| ==> blocks[i] in cache
      modifies this
      ensures blocks == []
      ensures forall b: nat {:trigger OnDisk(disk, b)} ::
        OnDisk(disk, b) == if b in old(blocks) then OnDisk(cache, b) else OnDisk(old(disk), b)
    {
      var i := 0;
      while i < |blocks|
        invariant 0 <= i <= |blocks| && blocks == old(blocks)
        invariant forall b: nat {:trigger OnDisk(disk, b)} ::
          OnDisk(disk, b) == if b in blocks[..i] then OnDisk(cache, b) else OnDisk(old(disk), b)
      {
        ghost var was := disk;
        disk := disk[blocks[i] := cache[blocks[i]]];
        forall b: nat {:trigger OnDisk(disk, b)}
          ensures OnDisk(disk, b) == if b in blocks[..i + 1] then OnDisk(cache, b) else OnDisk(old(disk), b)
        {
          PrefixGrows(blocks, i, b);
          assert OnDisk(disk, b) == if b == blocks[i] then OnDisk(cache, b) else OnDisk(was, b);
        }
        i := i + 1;
      }
      assert blocks[..i] == blocks;
      blocks := [];
    }

    /** `commit`: the home of every logged block receives its content, nothing else outside the log changes,
        and the log is left empty. The copy of the first block is overwritten by the header it shares a block with. */
    method CommitAll(cache: map<nat, Sector>) returns (ok: bool)
      requires Valid(cache)
      modifies this
      ensures ok <==> |old(blocks)| < NBUF
      ensures !ok ==> blocks == old(blocks) && disk == old(disk)
      ensures ok ==> blocks == []
      ensures old(blocks) == [] ==> disk == old(disk)
      ensures ok && old(blocks) != [] ==> layout.logstart in disk && Decode(disk[layout.logstart]) == Some([])
      ensures forall b: nat {:trigger OnDisk(disk, b)} :: ok && b in old(blocks) ==> OnDisk(disk, b) == OnDisk(cache, b)
      ensures forall b: nat {:trigger OnDisk(disk, b)} ::
        Home(layout, b) && b !in old(blocks) ==> OnDisk(disk, b) == OnDisk(old(disk), b)
    {
      hide Encode, Decode;
      ok := true;
      if blocks != [] {
        ok := WriteLogBody(cache);
        if !ok { return; }
        WriteLogHead();
        InstallTransaction(cache);
        WriteLogHead();
      }
    }

    /** `read`: the blocks named in the header on disk, each once. The header's buffer stays in use meanwhile. */
    method Read() returns (ok: bool)
      requires blocks == [] && layout.logstart in disk
      modifies this`blocks
      ensures ok <==> Listed(layout, disk[layout.logstart])
      ensures ok ==>
        Spread(blocks) &&
        forall b {:trigger b in blocks} :: b in blocks <==> b in Decode(disk[layout.logstart]).value
    {
      hide Decode, Named;
      var header := Decode(disk[layout.logstart]);
      if header.None? { return false; }
      var ix := header.value;
      var held := {layout.logstart};
      var i := 0;
      NoneNamed(ix);
      while i < |ix|
        invariant 0 <= i <= |ix| && Spread(blocks) && held == Named(ix, i) + {layout.logstart}
        invariant forall b {:trigger b in blocks} :: b in blocks <==> b in ix[..i]
        invariant forall j {:trigger Admitted(layout, ix, j)} :: 0 <= j < i ==> Admitted(layout, ix, j)
      {
        SameCount(blocks, ix, i);
        NamedNext(ix, i);
        assert ix[..i + 1] == ix[..i] + [ix[i]];
        if ix[i] !in held && |held| >= NBUF {
          assert !Admitted(layout, ix, i);
          return false;
        }
        held := held + {ix[i]};
        ok := Push(ix[i]);
        if !ok {
          assert !Admitted(layout, ix, i);
          return;
        }
        i := i + 1;
      }
      assert ix[..i] == ix;
      ok := true;
    }

    /** `recover_from_log`: it fails exactly on a header that cannot be replayed. Otherwise it empties the header and
        leaves every other block as the crash left it: the blocks it installs are read from their homes. */
    method RecoverFromLog() returns (ok: bool)
      requires blocks == [] && layout.logstart in disk
      modifies this
      ensures ok <==> Replayable(layout, old(disk))
      ensures disk == if ok then Recovered(layout, old(disk)) else old(disk)
      ensures ok ==> blocks == []
    {
      hide Decode, Encode, Named;
      ok := Read();
      if !ok { return; }
      ok := forall i | 0 <= i < |blocks| :: blocks[i] in disk;
      if !ok {
        ghost var i :| 0 <= i < |blocks| && blocks[i] !in disk;
        assert blocks[i] in blocks;
        return;
      }
      assert Replayable(layout, disk) by {
        forall b | b in Decode(disk[layout.logstart]).value ensures b in disk { assert b in blocks; }
      }
      InstallTransaction(disk);
      assert disk == old(disk) by { SameDisk(disk, old(disk)); }
      WriteLogHead();
    }
  }

  // ----- after a crash -----

  /** The different blocks among the first `i`. */
  ghost function Named(ix: seq<nat>, i: nat): set<nat>
    requires i <= |ix|
  {
    set j | 0 <= j < i :: ix[j]
  }

  lemma SameCount(blocks: seq<nat>, ix: seq<nat>, i: nat)
    requires Spread(blocks) && i <= |ix| && forall b {:trigger b in blocks} :: b in blocks <==> b in ix[..i]
    ensures |blocks| == |Named(ix, i)|
  {
    forall b ensures b in Named(ix, i) <==> b in blocks {
      if b in Named(ix, i) {
        var j :| 0 <= j < i && ix[j] == b;
        assert ix[..i][j] == b;
      }
      if b in blocks {
        var j :| 0 <= j < i && ix[..i][j] == b;
        assert ix[j] == b;
      }
    }
    SpreadCount(blocks, Named(ix, i));
  }

  lemma SameDisk(disk: map<nat, Sector>, disk': map<nat, Sector>)
    requires forall b: nat {:trigger OnDisk(disk, b)} :: OnDisk(disk, b) == OnDisk(disk', b)
    ensures disk == disk'
  {
    forall b: nat ensures b in disk <==> b in disk' && (b in disk ==> disk[b] == disk'[b]) {
      assert OnDisk(disk, b) == OnDisk(disk', b);
    }
  }

  lemma NoneNamed(ix: seq<nat>)
    ensures Named(ix, 0) == {}
  {
  }

  lemma NamedNext(ix: seq<nat>, i: nat)
    requires i < |ix|
    ensures Named(ix, i + 1) == Named(ix, i) + {ix[i]}
  {
  }

  /** Entry `i` finds a buffer, next to the header's and those of the blocks before it, and room in the log. */
  ghost predicate Admitted(l: Layout, ix: seq<nat>, i: nat)
    requires i < |ix|
  {
    var held := Named(ix, i) + {l.logstart};
    (ix[i] in held || |held| < NBUF) && |Named(ix, i)| < LOG_SIZE
  }

  /** The header can be read: its count is possible and every entry is admitted. */
  ghost predicate Listed(l: Layout, b: Sector) {
    && Decode(b).Some?
    && forall i {:trigger Admitted(l, Decode(b).value, i)} :: 0 <= i < |Decode(b).value| ==>
         Admitted(l, Decode(b).value, i)
  }

  /** And every block it names is on the disk. */
  ghost predicate Readable(l: Layout, b: Sector, disk: map<nat, Sector>) {
    Listed(l, b) && forall c {:trigger c in disk} :: c in Decode(b).value ==> c in disk
  }

  ghost predicate Replayable(l: Layout, disk: map<nat, Sector>) {
    l.logstart in disk && Readable(l, disk[l.logstart], disk)
  }

  /** The disk that recovery leaves. */
  ghost function Recovered(l: Layout, disk: map<nat, Sector>): map<nat, Sector> {
    disk[l.logstart := Encode([])]
  }

  /** After a recovery the log starts afresh, whatever home blocks have been read since. */
  lemma RecoveredStarts(l: Layout, disk: map<nat, Sector>, cache: map<nat, Sector>)
    requires Replayable(l, disk)
    requires forall b {:trigger b in cache} :: b in cache ==> Home(l, b) && b in disk && cache[b] == disk[b]
    ensures Started(l, State(Open, [], map[], map[], cache, {}, Recovered(l, disk)))
  {
    hide Encode, Listed;
  }

  /** The logged blocks whose homes have not been written yet. */
  ghost function Pending(s: State): seq<nat>
    requires StageOk(s) && s.phase.Committing?
  {
    match s.phase.stage
    case Body(_) => s.blocks
    case Head => s.blocks
    case Install(k) => s.blocks[k..]
    case Erase => []
    case Return => []
  }

  /** A crash during a commit: recovery succeeds, and every home block then holds what the clients saw. */
  ghost predicate Survives(l: Layout, s: State) {
    && Replayable(l, s.disk)
    && forall b {:trigger b in s.cache} :: b in s.cache && Home(l, b) ==> Clean(b, s.cache, Recovered(l, s.disk))
  }

  /** The first logged block stands in the header block. */
  predicate Overwritten(s: State) {
    s.phase.Committing? && (s.phase.stage.Head? || (s.phase.stage.Body? && s.phase.stage.i > 0))
  }

  /** A commit survives a crash exactly when no block still to be installed had changed and the header block, where
      the first logged block has overwritten it, happens to read as a header. */
  lemma CommitSurvivesIff(l: Layout, s: State)
    requires Inv(l, s) && s.phase.Committing?
    ensures Overwritten(s) ==> s.blocks != [] && s.blocks[0] in s.cache
    ensures Replayable(l, s.disk) <==> (Overwritten(s) ==> Readable(l, s.cache[s.blocks[0]], s.disk))
    ensures Survives(l, s) <==>
      && (Overwritten(s) ==> Readable(l, s.cache[s.blocks[0]], s.disk))
      && (forall b {:trigger b in Pending(s)} :: b in Pending(s) ==> Clean(b, s.cache, s.disk))
  {
    hide Reserve, Encode, Readable;
    EmptyReadable(l, s.disk);
    if s.phase.stage.Install? { HeaderReplayable(l, s); }
    var pending, disk := Pending(s), Recovered(l, s.disk);
    forall b | b in s.cache && Home(l, b) ensures b in pending || Clean(b, s.cache, s.disk) {
      Quiet(l, s, b);
      PendingOrDone(s, b);
    }
    forall b | b in pending ensures b in s.cache && Home(l, b) { assert b in s.blocks; }
    assert forall b :: Home(l, b) ==> (Clean(b, s.cache, disk) <==> Clean(b, s.cache, s.disk));
  }

  lemma EmptyReadable(l: Layout, disk: map<nat, Sector>)
    ensures Readable(l, Encode([]), disk)
  {
    HeaderRoundTrip([]);
  }

  lemma PendingOrDone(s: State, b: nat)
    requires StageOk(s) && s.phase.Committing?
    ensures b in s.blocks ==> b in Pending(s) || Installed(s.phase, s.blocks, b)
  {
    if s.phase.stage.Install? { assert s.blocks == s.blocks[..s.phase.stage.k] + s.blocks[s.phase.stage.k..]; }
  }

  /** Between the first body write and the header write, the header block holds a client's data; with a first number
      above `MAX_LOG_COUNT` in it, recovery fails. */
  lemma BodyOverHeader(l: Layout, s: State)
    requires Inv(l, s) && Overwritten(s)
    ensures s.blocks != [] && s.blocks[0] in s.cache && s.disk[l.logstart] == s.cache[s.blocks[0]]
    ensures Word(s.cache[s.blocks[0]], 0) > MAX_LOG_COUNT ==> !Replayable(l, s.disk)
  {
    hide Reserve, Encode, Word;
  }

  // ----- how far a commit has come -----

  /** The state `n` steps into a commit. */
  ghost function CommitN(l: Layout, s: State, n: nat): (t: State)
    requires Inv(l, s) && n <= StepsLeft(s) && !NoBuffer(s)
    ensures Inv(l, t) && StepsLeft(t) == StepsLeft(s) - n && !NoBuffer(t)
    decreases n
  {
    if n == 0 then s
    else
      CommitOk(l, s);
      CommitAdvances(l, s);
      CommitN(l, Commit(l, s), n - 1)
  }

  lemma {:induction false} CommitNext(l: Layout, s: State, n: nat)
    requires Inv(l, s) && n < StepsLeft(s) && !NoBuffer(s)
    ensures CommitN(l, s, n).phase.Committing? && CommitN(l, s, n + 1) == Commit(l, CommitN(l, s, n))
    decreases n
  {
    hide Reserve, Encode, BlockOk, Spread;
    CommitOk(l, s);
    CommitAdvances(l, s);
    if n > 0 { CommitNext(l, Commit(l, s), n - 1); }
  }

  /** Where `n` steps lead from the beginning of a commit of `m` blocks. */
  function StageAt(m: nat, n: nat): Stage {
    if n <= m then Body(n) else if n == m + 1 then Head else Install(n - m - 2)
  }

  lemma CommitEffect(l: Layout, s: State, n: nat)
    requires Inv(l, s) && s.phase == Committing(StageAt(|s.blocks|, n)) && n < 2 * |s.blocks| + 2
    ensures Commit(l, s).phase == Committing(StageAt(|s.blocks|, n + 1))
    ensures Commit(l, s).blocks == s.blocks && Commit(l, s).cache == s.cache
  {
    hide Reserve, Encode, BlockOk, Spread;
  }

  lemma CommitWrites(l: Layout, s: State, n: nat, b: nat)
    requires Inv(l, s) && s.phase == Committing(StageAt(|s.blocks|, n)) && n < 2 * |s.blocks| + 2 && Home(l, b)
    ensures OnDisk(Commit(l, s).disk, b) ==
      if n >= |s.blocks| + 2 && b == s.blocks[n - |s.blocks| - 2] then OnDisk(s.cache, b) else OnDisk(s.disk, b)
  {
    hide Reserve, Encode, BlockOk, Spread, HeaderOk;
    if n >= |s.blocks| + 2 { assert s.blocks[n - |s.blocks| - 2] in s.blocks; }
  }

  /** `b` is among the first `k` blocks. */
  ghost predicate Early(q: seq<nat>, k: int, b: nat) {
    0 <= k <= |q| && b in q[..k]
  }

  lemma EarlyNext(q: seq<nat>, k: nat, b: nat)
    requires k < |q|
    ensures Early(q, k + 1, b) <==> Early(q, k, b) || b == q[k]
  {
    assert q[..k + 1] == q[..k] + [q[k]];
  }

  lemma CommitZero(l: Layout, s: State)
    requires Inv(l, s) && !NoBuffer(s)
    ensures CommitN(l, s, 0) == s
  {
  }

  lemma CommitLength(l: Layout, s: State)
    requires Inv(l, s) && s.phase == Committing(Body(0))
    ensures StageOk(s) && StepsLeft(s) == 2 * |s.blocks| + 5
  {
  }

  lemma {:induction false} CommitProgress(l: Layout, s: State, n: nat)
    requires Inv(l, s) && s.phase == Committing(Body(0)) && |s.blocks| < NBUF && n <= 2 * |s.blocks| + 2
    ensures CommitN(l, s, n).phase == Committing(StageAt(|s.blocks|, n))
    ensures CommitN(l, s, n).blocks == s.blocks && CommitN(l, s, n).cache == s.cache
    decreases n
  {
    hide Inv, Commit, StepsLeft, StageOk, CommitN;
    CommitLength(l, s);
    CommitZero(l, s);
    if n > 0 {
      CommitProgress(l, s, n - 1);
      CommitNext(l, s, n - 1);
      CommitEffect(l, CommitN(l, s, n - 1), n - 1);
    }
  }

  lemma {:induction false} CommitDisk(l: Layout, s: State, n: nat, b: nat)
    requires Inv(l, s) && s.phase == Committing(Body(0)) && |s.blocks| < NBUF && n <= 2 * |s.blocks| + 2 && Home(l, b)
    ensures OnDisk(CommitN(l, s, n).disk, b) ==
      if Early(s.blocks, n - |s.blocks| - 2, b) then OnDisk(s.cache, b) else OnDisk(s.disk, b)
    decreases n
  {
    hide Inv, Commit, OnDisk, StepsLeft, StageOk, CommitN;
    CommitLength(l, s);
    CommitZero(l, s);
    if n > 0 {
      CommitDisk(l, s, n - 1, b);
      CommitProgress(l, s, n - 1);
      CommitNext(l, s, n - 1);
      CommitWrites(l, CommitN(l, s, n - 1), n - 1, b);
      var k := n - |s.blocks| - 2;
      if k > 0 { EarlyNext(s.blocks, k - 1, b); }
    }
  }

  lemma HomeAfterCrash(l: Layout, s: State, k: nat, b: nat)
    requires Inv(l, s) && s.phase == Committing(Body(0)) && k <= |s.blocks| < NBUF && Home(l, b)
    ensures OnDisk(Recovered(l, CommitN(l, s, |s.blocks| + 2 + k).disk), b) ==
      if b in s.blocks[..k] then OnDisk(s.cache, b) else OnDisk(s.disk, b)
  {
    hide Inv, StepsLeft, StageOk, CommitN, Encode;
    CommitLength(l, s);
    CommitDisk(l, s, |s.blocks| + 2 + k, b);
  }

  /** A crash after `k` blocks were installed: recovery succeeds, those `k` blocks hold their new content and the
      others what they held before the commit. */
  lemma CrashWhileInstalling(l: Layout, s: State, k: nat)
    requires Inv(l, s) && s.phase == Committing(Body(0)) && k <= |s.blocks| < NBUF
    ensures var disk := CommitN(l, s, |s.blocks| + 2 + k).disk;
      && Replayable(l, disk)
      && forall b: nat {:trigger OnDisk(Recovered(l, disk), b)} :: Home(l, b) ==>
        OnDisk(Recovered(l, disk), b) == if b in s.blocks[..k] then OnDisk(s.cache, b) else OnDisk(s.disk, b)
  {
    hide Inv, StepsLeft, StageOk, CommitN, Replayable, Recovered, OnDisk, Home;
    CommitLength(l, s);
    var n := |s.blocks| + 2 + k;
    CommitProgress(l, s, n);
    HeaderReplayable(l, CommitN(l, s, n));
    var disk := CommitN(l, s, n).disk;
    forall b: nat {:trigger OnDisk(Recovered(l, disk), b)} | Home(l, b)
      ensures OnDisk(Recovered(l, disk), b) == if b in s.blocks[..k] then OnDisk(s.cache, b) else OnDisk(s.disk, b)
    {
      HomeAfterCrash(l, s, k, b);
    }
  }

  lemma HeaderReplayable(l: Layout, s: State)
    requires Inv(l, s) && s.phase.Committing? && s.phase.stage.Install?
    ensures Replayable(l, s.disk)
  {
    hide Reserve, BlockOk, Encode, Decode;
    forall i {:trigger s.blocks[i]} | 0 <= i < |s.blocks|
      ensures s.blocks[i] < 0x1_0000_0000
    {
      assert s.blocks[i] in s.blocks;
    }
    HeaderRoundTrip(s.blocks);
    forall i {:trigger Admitted(l, s.blocks, i)} | 0 <= i < |s.blocks| ensures Admitted(l, s.blocks, i) {
      SameCount(s.blocks[..i], s.blocks, i);
    }
  }

  /** All or nothing of the blocks of a commit, after a crash with `k` of them installed: all exactly if the rest had
      not changed, nothing exactly if the first `k` had not changed. */
  lemma AtomicIff(l: Layout, s: State, k: nat)
    requires Inv(l, s) && s.phase == Committing(Body(0)) && k <= |s.blocks| < NBUF
    ensures var disk := Recovered(l, CommitN(l, s, |s.blocks| + 2 + k).disk);
      && (Agree(s.blocks, disk, s.cache) <==> Agree(s.blocks[k..], s.disk, s.cache))
      && (Agree(s.blocks, disk, s.disk) <==> Agree(s.blocks[..k], s.disk, s.cache))
  {
    CrashWhileInstalling(l, s, k);
    var disk := Recovered(l, CommitN(l, s, |s.blocks| + 2 + k).disk);
    forall b | b in s.blocks
      ensures Home(l, b) && (b in s.blocks[k..] <==> b !in s.blocks[..k])
      ensures OnDisk(disk, b) == if b in s.blocks[..k] then OnDisk(s.cache, b) else OnDisk(s.disk, b)
    {
      InOnePart(s.blocks, k, b);
    }
    hide CommitN, Inv, Recovered, OnDisk;
    assert forall b :: b in s.blocks[..k] || b in s.blocks[k..] ==> b in s.blocks;
  }

  /** The two disks hold the same in the blocks `bs`. */
  ghost predicate Agree(bs: seq<nat>, disk: map<nat, Sector>, disk': map<nat, Sector>) {
    forall b {:trigger b in bs} :: b in bs ==> OnDisk(disk, b) == OnDisk(disk', b)
  }

  lemma InOnePart(q: seq<nat>, k: nat, b: nat)
    requires Spread(q) && k <= |q| && b in q
    ensures b in q[k..] <==> b !in q[..k]
  {
    assert q == q[..k] + q[k..];
  }

  /** The run to the point where the last transaction of two changed blocks takes the header away. */
  function TwoBlockOps(b: nat, x: Sector, c: nat, y: Sector): seq<Op> {
    [Begin(0)] + Add(0, b, x) + Add(0, c, y) + [End(0)]
  }

  lemma LastEnds(l: Layout, s: State, ops: seq<Op>, t: State) returns (t': State)
    requires Reaches(l, s, ops, t) && t.used.Keys == {0} && t.held == map[] && t.blocks != []
    ensures Reaches(l, s, ops + [End(0)], t')
    ensures t'.phase == Committing(Body(0)) && t'.blocks == t.blocks && t'.cache == t.cache && t'.disk == t.disk
  {
    hide Inv, LegalRun, Run;
    RoomForOne(l, t, 0);
    assert t.used - {0} == map[];
    ReachesNext(l, s, ops, t, End(0));
    t' := Step(l, t, End(0)).s;
  }

  lemma TwoBlockRun(l: Layout, s: State, b: nat, x: Sector, c: nat, y: Sector) returns (t: State)
    requires Started(l, s) && b != c && Home(l, b) && Home(l, c) && b in s.cache && c in s.cache
    ensures Reaches(l, s, TwoBlockOps(b, x, c, y), t) && t.phase == Committing(Body(0)) && t.blocks == [b, c]
    ensures t.cache == s.cache[b := x][c := y] && t.disk == s.disk
  {
    hide Inv, LegalRun, Run, Started, Reaches;
    var t0 := OneBegins(l, s);
    var t1 := AddReaches(l, s, [Begin(0)], t0, 0, b, x);
    var t2 := AddReaches(l, s, [Begin(0)] + Add(0, b, x), t1, 0, c, y);
    t := LastEnds(l, s, [Begin(0)] + Add(0, b, x) + Add(0, c, y), t2);
  }

  /** A transaction torn in two: a crash after its first block was installed leaves that one new and the other old,
      and the recovery forgets the copy in the log. */
  lemma TornCommit(l: Layout, s: State, b: nat, x: Sector, c: nat, y: Sector)
    requires Started(l, s) && b != c && Home(l, b) && Home(l, c) && b in s.cache && c in s.cache
    requires x != s.cache[b] && y != s.cache[c]
    ensures Inv(l, s) && LegalRun(l, s, TwoBlockOps(b, x, c, y)) && Run(l, s, TwoBlockOps(b, x, c, y)).Ok?
    ensures var t := Run(l, s, TwoBlockOps(b, x, c, y)).s;
      && Inv(l, t) && t.phase == Committing(Body(0)) && 5 <= StepsLeft(t) && !NoBuffer(t)
      && var disk := CommitN(l, t, 5).disk;
         && Replayable(l, disk) && OnDisk(Recovered(l, disk), b) == Some(x) != OnDisk(s.disk, b)
         && OnDisk(Recovered(l, disk), c) == OnDisk(s.disk, c) != Some(y)
  {
    hide Inv, LegalRun, Run, Started, CommitN, Recovered, Replayable, StepsLeft, StageOk, TwoBlockOps;
    var t := TwoBlockRun(l, s, b, x, c, y);
    StartedClean(l, s, b);
    StartedClean(l, s, c);
    OneInstalled(l, t, b, c);
  }

  lemma StartedClean(l: Layout, s: State, b: nat)
    requires Started(l, s) && Home(l, b) && b in s.cache
    ensures Clean(b, s.cache, s.disk)
  {
    hide Encode;
  }

  lemma OneInstalled(l: Layout, t: State, b: nat, c: nat)
    requires Inv(l, t) && t.phase == Committing(Body(0)) && t.blocks == [b, c] && b != c && Home(l, b) && Home(l, c)
    ensures StageOk(t) && 5 <= StepsLeft(t)
    ensures var disk := CommitN(l, t, 5).disk;
      && Replayable(l, disk) && OnDisk(Recovered(l, disk), b) == OnDisk(t.cache, b)
      && OnDisk(Recovered(l, disk), c) == OnDisk(t.disk, c)
  {
    hide Inv, CommitN, Recovered, Replayable, StepsLeft, StageOk, OnDisk;
    CommitLength(l, t);
    CrashWhileInstalling(l, t, 1);
    assert t.blocks[..1] == [b];
  }
}
