/** Sleeping and waking on a condition variable: interleaved steps of waiters, notifiers and kills around one
    lock, one wrapping counter and the lock of each process. */
module CondVar {
  import opened Options

  const WRAP: nat := 0x1_0000_0000_0000_0000

  /** Where an agent is. The comments name the locks held. */
  datatype Pc =
    | Idle                                   // none
    | Inside                                 // the lock
    | Decided(snap: nat)                     // the lock: about to call sleep
    | Locked(snap: nat)                      // the lock and its process lock
    | Released(snap: nat)                    // its process lock
    | Marked(snap: nat)                      // its process lock, state set to sleeping
    | Parked(snap: nat)                      // none: switched away
    | Resumed(snap: nat)                     // its process lock, taken by the scheduler
    | Back(snap: nat, killed: bool)          // none: about to take the lock again
    | Checking(snap: nat, killed: bool)      // the lock
    | Scan(i: nat, late: bool)               // the lock, unless late: notifying, the processes below i are done

  /** `holder` holds the lock, `locked` are the processes whose own lock is taken, `asleep` those whose state is
      sleeping on this variable. `notified` counts the notifications; the code has it modulo `WRAP`. `version` counts
      the changes made under the lock, `seen` is the version a process saw before it went to wait, and `due` the last
      change of an agent that has not notified since. */
  datatype State = State(pc: map<nat, Pc>, holder: Option<nat>, locked: set<nat>, asleep: set<nat>, killed: set<nat>,
                         notified: nat, version: nat, seen: map<nat, nat>, due: map<nat, nat>)

  /** `NotifyStart` keeps the lock over the notification, `NotifyLate` has given it up before. */
  datatype Op =
    | Acquire(a: nat)
    | Change(a: nat)
    | Unlock(a: nat)
    | WaitStart(a: nat)
    | TakeProcLock(a: nat)
    | Refuse(a: nat)
    | ReleaseLock(a: nat)
    | Mark(a: nat)
    | Park(a: nat)
    | Schedule(a: nat)
    | Resume(a: nat)
    | Reacquire(a: nat)
    | Finish(a: nat, force: bool)
    | NotifyStart(a: nat)
    | NotifyLate(a: nat)
    | ScanOne(a: nat)
    | ScanDone(a: nat)
    | Kill(a: nat)

  predicate HoldsLock(pc: Pc) {
    pc.Inside? || pc.Decided? || pc.Locked? || pc.Checking? || (pc.Scan? && !pc.late)
  }

  predicate HoldsProcLock(pc: Pc) {
    pc.Locked? || pc.Released? || pc.Marked? || pc.Resumed?
  }

  /** Somewhere in `wait`. */
  predicate InWait(pc: Pc) {
    !pc.Idle? && !pc.Inside? && !pc.Scan?
  }

  /** The counter is not what it was when the wait began. */
  predicate Moved(s: State, snap: nat) {
    snap % WRAP != s.notified % WRAP
  }

  /** Processes are the agents below `n`; others, such as interrupt handlers, only notify. */
  predicate Enabled(s: State, n: nat, op: Op) {
    op.a in s.pc && var pc := s.pc[op.a];
    match op
    case Acquire(a) => pc.Idle? && s.holder.None?
    case Change(a) => pc.Inside?
    case Unlock(a) => pc.Inside?
    case WaitStart(a) => pc.Inside? && a < n
    case TakeProcLock(a) => pc.Decided? && a !in s.locked
    case Refuse(a) => pc.Locked? && a in s.killed
    case ReleaseLock(a) => pc.Locked?
    case Mark(a) => pc.Released?
    case Park(a) => pc.Marked?
    case Schedule(a) => pc.Parked? && a !in s.asleep && a !in s.locked
    case Resume(a) => pc.Resumed?
    case Reacquire(a) => pc.Back? && s.holder.None?
    case Finish(a, force) => pc.Checking?
    case NotifyStart(a) => pc.Inside?
    case NotifyLate(a) => pc.Idle?
    case ScanOne(a) => pc.Scan? && pc.i < n && pc.i !in s.locked
    case ScanDone(a) => pc.Scan? && pc.i == n
    case Kill(a) => a < n && a !in s.locked
  }

  function Step(s: State, n: nat, op: Op): State
    requires Enabled(s, n, op)
  {
    var a, pc := op.a, s.pc[op.a];
    match op
    case Acquire(_) => s.(pc := s.pc[a := Inside], holder := Some(a))
    case Change(_) => s.(version := s.version + 1, due := s.due[a := s.version + 1])
    case Unlock(_) => s.(pc := s.pc[a := Idle], holder := None)
    case WaitStart(_) => s.(pc := s.pc[a := Decided(s.notified)], seen := s.seen[a := s.version])
    case TakeProcLock(_) => s.(pc := s.pc[a := Locked(pc.snap)], locked := s.locked + {a})
    case Refuse(_) => s.(pc := s.pc[a := Inside], locked := s.locked - {a})
    case ReleaseLock(_) => s.(pc := s.pc[a := Released(pc.snap)], holder := None)
    case Mark(_) => s.(pc := s.pc[a := Marked(pc.snap)], asleep := s.asleep + {a})
    case Park(_) => s.(pc := s.pc[a := Parked(pc.snap)], locked := s.locked - {a})
    case Schedule(_) => s.(pc := s.pc[a := Resumed(pc.snap)], locked := s.locked + {a})
    case Resume(_) => s.(pc := s.pc[a := Back(pc.snap, a in s.killed)], locked := s.locked - {a})
    case Reacquire(_) => s.(pc := s.pc[a := Checking(pc.snap, pc.killed)], holder := Some(a))
    case Finish(_, force) =>
      s.(pc := s.pc[a := if (pc.killed && !force) || Moved(s, pc.snap) then Inside else Decided(pc.snap)])
    case NotifyStart(_) => s.(pc := s.pc[a := Scan(0, false)], notified := s.notified + 1, due := s.due - {a})
    case NotifyLate(_) => s.(pc := s.pc[a := Scan(0, true)], notified := s.notified + 1, due := s.due - {a})
    case ScanOne(_) => s.(pc := s.pc[a := Scan(pc.i + 1, pc.late)], asleep := s.asleep - {pc.i})
    case ScanDone(_) => s.(pc := s.pc[a := if pc.late then Idle else Inside])
    case Kill(_) => s.(killed := s.killed + {a}, asleep := s.asleep - {a})
  }

  // ----- locks -----

  ghost predicate AgentOk(s: State, n: nat, a: nat) {
    a in s.pc && var pc := s.pc[a];
    && (HoldsLock(pc) <==> s.holder == Some(a))
    && (HoldsProcLock(pc) <==> a in s.locked)
    && (a in s.asleep ==> pc.Marked? || pc.Parked?)
    && (pc.Marked? ==> a in s.asleep)
    && (pc.Scan? ==> pc.i <= n)
    && (InWait(pc) ==> a < n && pc.snap <= s.notified && a in s.seen && s.seen[a] <= s.version)
  }

  ghost predicate Inv(s: State, n: nat) {
    && (forall a {:trigger AgentOk(s, n, a)} :: a in s.pc ==> AgentOk(s, n, a))
    && (forall p: nat {:trigger p in s.pc} :: p < n ==> p in s.pc)
    && (forall p {:trigger p in s.locked} :: p in s.locked ==> p in s.pc)
    && (forall p {:trigger p in s.asleep} :: p in s.asleep ==> p in s.pc)
    && (s.holder.Some? ==> s.holder.value in s.pc)
  }

  /** A step of one agent keeps what holds of another. */
  lemma OtherOk(s: State, n: nat, op: Op, b: nat)
    requires Inv(s, n) && Enabled(s, n, op) && b in s.pc && b != op.a
    ensures AgentOk(Step(s, n, op), n, b)
  {
    assert AgentOk(s, n, op.a) && AgentOk(s, n, b);
    if s.holder.Some? { assert AgentOk(s, n, s.holder.value); }
  }

  lemma OwnOk(s: State, n: nat, op: Op)
    requires Enabled(s, n, op) && AgentOk(s, n, op.a)
    ensures AgentOk(Step(s, n, op), n, op.a)
  {
    hide Moved;
  }

  lemma StepOk(s: State, n: nat, op: Op)
    requires Inv(s, n) && Enabled(s, n, op)
    ensures Inv(Step(s, n, op), n)
  {
    hide AgentOk;
    var s' := Step(s, n, op);
    assert AgentOk(s, n, op.a);
    OwnOk(s, n, op);
    forall b {:trigger AgentOk(s', n, b)} | b in s'.pc ensures AgentOk(s', n, b) {
      if b != op.a { OtherOk(s, n, op, b); }
    }
  }

  // ----- whole runs -----

  predicate EnabledRun(s: State, n: nat, ops: seq<Op>)
    decreases |ops|
  {
    ops == [] || (Enabled(s, n, ops[0]) && EnabledRun(Step(s, n, ops[0]), n, ops[1..]))
  }

  function Run(s: State, n: nat, ops: seq<Op>): State
    requires EnabledRun(s, n, ops)
    decreases |ops|
  {
    if ops == [] then s else Run(Step(s, n, ops[0]), n, ops[1..])
  }

  /** Nobody inside, nobody asleep, nothing left to notify. */
  ghost predicate Start(s: State, n: nat) {
    && s.holder == None && s.locked == {} && s.asleep == {} && s.due == map[]
    && (forall a {:trigger s.pc[a]} :: a in s.pc ==> s.pc[a] == Idle)
    && (forall p: nat {:trigger p in s.pc} :: p < n ==> p in s.pc)
  }

  lemma StartOk(s: State, n: nat)
    requires Start(s, n)
    ensures Inv(s, n) && Tracked(s, n) && Punctual(s, n)
  {
    forall a {:trigger AgentOk(s, n, a)} | a in s.pc ensures AgentOk(s, n, a) { assert s.pc[a] == Idle; }
    forall a {:trigger Awaited(s, a)} | a in s.pc ensures Awaited(s, a) { assert s.pc[a] == Idle; }
    forall a {:trigger InTime(s, a)} | a in s.pc ensures InTime(s, a) { assert s.pc[a] == Idle; }
  }

  lemma {:induction false} RunOk(s: State, n: nat, ops: seq<Op>)
    requires Inv(s, n) && EnabledRun(s, n, ops)
    ensures Inv(Run(s, n, ops), n)
    decreases |ops|
  {
    hide Inv, Step, Enabled;
    if ops != [] {
      StepOk(s, n, ops[0]);
      RunOk(Step(s, n, ops[0]), n, ops[1..]);
    }
  }

  // ----- notifiers that keep the lock -----

  /** The process is asleep or committed to falling asleep with its lock no longer held. */
  ghost predicate Sleeps(s: State, p: nat) {
    p in s.pc && (s.pc[p].Released? || s.pc[p].Marked? || (s.pc[p].Parked? && p in s.asleep))
  }

  /** A notifier that holds the lock is at work and has not yet come to process `p`. */
  ghost predicate Coming(s: State, p: nat) {
    s.holder.Some? && s.holder.value in s.pc && s.pc[s.holder.value].Scan? && s.pc[s.holder.value].i <= p
  }

  ghost predicate InTime(s: State, a: nat)
    requires a in s.pc
  {
    var pc := s.pc[a];
    && !(pc.Scan? && pc.late)
    && (pc.Decided? || pc.Locked? ==> !Moved(s, pc.snap))
    && (Sleeps(s, a) && Moved(s, pc.snap) ==> Coming(s, a))
  }

  /** No notification but under the lock, so no sleeper has missed one. */
  ghost predicate Punctual(s: State, n: nat) {
    forall a {:trigger InTime(s, a)} :: a in s.pc ==> InTime(s, a)
  }

  ghost predicate KeepLock(ops: seq<Op>) {
    forall i {:trigger ops[i]} :: 0 <= i < |ops| ==> !ops[i].NotifyLate?
  }

  lemma InTimeKept(s: State, n: nat, op: Op, b: nat)
    requires Inv(s, n) && Punctual(s, n) && Enabled(s, n, op) && !op.NotifyLate? && b in s.pc
    ensures InTime(Step(s, n, op), b)
  {
    assert AgentOk(s, n, op.a) && AgentOk(s, n, b) && InTime(s, op.a) && InTime(s, b);
    if s.holder.Some? { assert AgentOk(s, n, s.holder.value) && InTime(s, s.holder.value); }
  }

  lemma {:induction false} PunctualRun(s: State, n: nat, ops: seq<Op>)
    requires Inv(s, n) && Punctual(s, n) && EnabledRun(s, n, ops) && KeepLock(ops)
    ensures Punctual(Run(s, n, ops), n)
    decreases |ops|
  {
    hide Inv, InTime;
    if ops != [] {
      var s', rest := Step(s, n, ops[0]), ops[1..];
      StepOk(s, n, ops[0]);
      forall b {:trigger InTime(s', b)} | b in s'.pc ensures InTime(s', b) { InTimeKept(s, n, ops[0], b); }
      assert forall i {:trigger rest[i]} :: 0 <= i < |rest| ==> rest[i] == ops[i + 1];
      hide Step, Enabled;
      PunctualRun(s', n, rest);
    }
  }

  /** No lost wakeup: in every interleaving in which notifiers hold the lock, a process that sleeps, or is past giving
      up the lock, although the counter has moved has a notifier still to come to it. */
  lemma NoLostWakeup(s: State, n: nat, ops: seq<Op>, p: nat)
    requires Start(s, n) && EnabledRun(s, n, ops) && KeepLock(ops)
    requires Sleeps(Run(s, n, ops), p) && Moved(Run(s, n, ops), Run(s, n, ops).pc[p].snap)
    ensures Coming(Run(s, n, ops), p)
  {
    StartOk(s, n);
    PunctualRun(s, n, ops);
    assert InTime(Run(s, n, ops), p);
  }

  /** Once no notification is under way, nobody sleeps through one that happened after going to wait. */
  lemma SleepersAreCurrent(s: State, n: nat, p: nat)
    requires Inv(s, n) && Punctual(s, n) && Sleeps(s, p)
    requires forall a {:trigger s.pc[a]} :: a in s.pc ==> !s.pc[a].Scan?
    ensures !Moved(s, s.pc[p].snap)
  {
    assert InTime(s, p);
  }

  // ----- notifiers that may have given up the lock -----

  /** Some agent has made a change after version `v` and not notified since. */
  ghost predicate Owed(s: State, v: nat) {
    exists a {:trigger s.due[a]} :: a in s.due && v < s.due[a]
  }

  /** A notifier, other than `but`, has not yet come to process `p`. */
  ghost predicate Near(s: State, p: nat, but: Option<nat>) {
    exists a {:trigger s.pc[a]} :: a in s.pc && Some(a) != but && s.pc[a].Scan? && s.pc[a].i <= p
  }

  /** Asleep, or on the way there without another look at the counter. */
  ghost predicate Bound(s: State, p: nat) {
    p in s.pc && (s.pc[p].Decided? || s.pc[p].Locked? || Sleeps(s, p))
  }

  /** The process has not seen the last change. */
  ghost predicate Behind(s: State, p: nat) {
    p in s.seen && s.seen[p] < s.version
  }

  /** A process bound to sleep that has not seen the last change has somebody who will notify, or is notifying. */
  ghost predicate Covered(s: State, p: nat) {
    Bound(s, p) && Behind(s, p) ==> Owed(s, s.seen[p]) || Near(s, p, None)
  }

  /** As long as nobody has notified since a wait began, the changes since then are still to be notified. */
  ghost predicate Awaited(s: State, p: nat)
    requires p in s.pc
  {
    InWait(s.pc[p]) && Behind(s, p) && s.pc[p].snap == s.notified ==> Owed(s, s.seen[p])
  }

  ghost predicate Tracked(s: State, n: nat) {
    forall p {:trigger Awaited(s, p)} :: p in s.pc ==> Awaited(s, p)
  }

  lemma OwedKept(s: State, n: nat, op: Op, v: nat)
    requires Enabled(s, n, op) && Owed(s, v) && !(op.NotifyStart? || op.NotifyLate?)
    ensures Owed(Step(s, n, op), v) || (op.Change? && v >= s.version)
  {
    var a :| a in s.due && v < s.due[a];
    var s' := Step(s, n, op);
    assert a in s'.due;
    if op.Change? { assert op.a in s'.due && s'.due[op.a] == s.version + 1; }
  }

  lemma AwaitedKept(s: State, n: nat, op: Op, p: nat)
    requires Inv(s, n) && Tracked(s, n) && Enabled(s, n, op) && p in s.pc
    ensures Awaited(Step(s, n, op), p)
  {
    assert AgentOk(s, n, p) && Awaited(s, p);
    var s' := Step(s, n, op);
    if InWait(s'.pc[p]) && Behind(s', p) && s'.pc[p].snap == s'.notified {
      if op.Change? {
        assert op.a in s'.due && s'.due[op.a] == s'.version;
      } else if Owed(s, s.seen[p]) && p in s.seen {
        OwedKept(s, n, op, s.seen[p]);
      }
    }
  }

  /** The last notifier passes a process that has looked at the counter but does not sleep yet. */
  ghost predicate Passed(s: State, op: Op, p: nat) {
    && op.ScanOne? && op.a in s.pc && s.pc[op.a].Scan? && s.pc[op.a].i == p
    && p in s.pc && s.pc[p].Decided? && !Near(s, p, Some(op.a))
  }

  /** A process goes back to sleep because the counter has come round. */
  ghost predicate CameRound(s: State, op: Op, p: nat) {
    && op.Finish? && op.a == p && p in s.pc && s.pc[p].Checking? && !(s.pc[p].killed && !op.force)
    && s.pc[p].snap != s.notified && !Moved(s, s.pc[p].snap) && !Near(s, p, None)
  }

  /** The step by which a process bound to sleep is left without a notifier. */
  ghost predicate Misses(s: State, op: Op, p: nat) {
    Behind(s, p) && !Owed(s, s.seen[p]) && (Passed(s, op, p) || CameRound(s, op, p))
  }

  /** A notifier that a step does not touch is as near as before. */
  lemma NearKept(s: State, n: nat, op: Op, p: nat, b: nat)
    requires Enabled(s, n, op) && b in s.pc && s.pc[b].Scan? && s.pc[b].i <= p && (b != op.a || op.Kill?)
    ensures Near(Step(s, n, op), p, None)
  {
    var s' := Step(s, n, op);
    assert b in s'.pc && s'.pc[b] == s.pc[b];
  }

  lemma CoveredKept(s: State, n: nat, op: Op, p: nat)
    requires Inv(s, n) && Tracked(s, n) && Enabled(s, n, op) && p in s.pc && p < n
    requires Covered(s, p) && !Misses(s, op, p)
    ensures Covered(Step(s, n, op), p)
  {
    assert AgentOk(s, n, p) && AgentOk(s, n, op.a) && Awaited(s, p);
    var s' := Step(s, n, op);
    if Bound(s', p) && Behind(s', p) {
      if op.Change? {
        assert op.a in s'.due && s'.due[op.a] == s'.version;
      } else if op.NotifyStart? || op.NotifyLate? {
        assert op.a in s'.pc && s'.pc[op.a].Scan?;
      } else {
        assert Behind(s, p) && s'.seen[p] == s.seen[p];
        if Owed(s, s.seen[p]) {
          OwedKept(s, n, op, s.seen[p]);
        } else {
          NearStays(s, n, op, p);
        }
      }
    }
  }

  lemma NearStays(s: State, n: nat, op: Op, p: nat)
    requires Inv(s, n) && Tracked(s, n) && Enabled(s, n, op) && p in s.pc && p < n
    requires Covered(s, p) && !Misses(s, op, p) && Behind(s, p) && !Owed(s, s.seen[p])
    requires !op.WaitStart? || op.a != p
    requires !op.Change? && !op.NotifyStart? && !op.NotifyLate? && Bound(Step(s, n, op), p)
    ensures Near(Step(s, n, op), p, None)
  {
    assert AgentOk(s, n, p) && AgentOk(s, n, op.a) && Awaited(s, p);
    assert Near(s, p, None);
    var b :| b in s.pc && s.pc[b].Scan? && s.pc[b].i <= p;
    if b != op.a || op.Kill? {
      NearKept(s, n, op, p, b);
    } else if op.ScanOne? && s.pc[b].i == p {
      assert s.pc[p].Decided?;
      var c :| c in s.pc && c != op.a && s.pc[c].Scan? && s.pc[c].i <= p;
      NearKept(s, n, op, p, c);
    } else {
      var s' := Step(s, n, op);
      assert b in s'.pc && s'.pc[b].Scan? && s'.pc[b].i <= p;
    }
  }

  lemma MissedUncovers(s: State, n: nat, op: Op, p: nat)
    requires Inv(s, n) && Enabled(s, n, op) && p in s.pc && Misses(s, op, p)
    ensures !Covered(Step(s, n, op), p)
  {
    assert AgentOk(s, n, p) && AgentOk(s, n, op.a);
    var s' := Step(s, n, op);
    forall a | a in s'.pc ensures !(s'.pc[a].Scan? && s'.pc[a].i <= p) {
      assert a != op.a ==> s'.pc[a] == s.pc[a];
    }
    assert s'.due == s.due && s'.version == s.version && s'.seen == s.seen;
  }

  /** Exactly these steps lose a wakeup, whether notifiers hold the lock or not. */
  lemma CoveredIff(s: State, n: nat, op: Op, p: nat)
    requires Inv(s, n) && Tracked(s, n) && Enabled(s, n, op) && p in s.pc && p < n && Covered(s, p)
    ensures Covered(Step(s, n, op), p) <==> !Misses(s, op, p)
  {
    hide Inv, Tracked, Enabled, Step, Covered, Misses;
    if Misses(s, op, p) { MissedUncovers(s, n, op, p); } else { CoveredKept(s, n, op, p); }
  }

  /** Somewhere in the run a step leaves `p` without a notifier. */
  ghost predicate MissedIn(s: State, n: nat, ops: seq<Op>, p: nat)
    requires EnabledRun(s, n, ops)
    decreases |ops|
  {
    ops != [] && (Misses(s, ops[0], p) || MissedIn(Step(s, n, ops[0]), n, ops[1..], p))
  }

  lemma {:induction false} CoveredRun(s: State, n: nat, ops: seq<Op>, p: nat)
    requires Inv(s, n) && Tracked(s, n) && EnabledRun(s, n, ops) && p in s.pc && p < n
    requires Covered(s, p) && !MissedIn(s, n, ops, p)
    ensures Covered(Run(s, n, ops), p)
    decreases |ops|
  {
    hide Inv, Covered, Misses, Awaited;
    if ops != [] {
      var s' := Step(s, n, ops[0]);
      StepOk(s, n, ops[0]);
      forall b {:trigger Awaited(s', b)} | b in s'.pc ensures Awaited(s', b) { AwaitedKept(s, n, ops[0], b); }
      CoveredIff(s, n, ops[0], p);
      hide Step, Enabled;
      CoveredRun(s', n, ops[1..], p);
    }
  }

  /** Every wait under way began at `base` notifications or later. */
  ghost predicate Since(s: State, base: nat) {
    base <= s.notified && forall a {:trigger s.pc[a]} :: a in s.pc && InWait(s.pc[a]) ==> base <= s.pc[a].snap
  }

  lemma NoMiss(s: State, n: nat, op: Op, p: nat, base: nat)
    requires Inv(s, n) && Punctual(s, n) && Enabled(s, n, op) && Since(s, base) && s.notified < base + WRAP
    ensures !Misses(s, op, p)
  {
    if op.a in s.pc && p in s.pc {
      assert AgentOk(s, n, op.a) && AgentOk(s, n, p) && InTime(s, op.a);
      if s.pc[p].Checking? { SameCounter(s.pc[p].snap, s.notified, base); }
    }
  }

  lemma SinceKept(s: State, n: nat, op: Op, base: nat)
    requires Enabled(s, n, op) && Since(s, base)
    ensures Since(Step(s, n, op), base)
  {
    hide Moved;
  }

  lemma SameCounter(x: nat, y: nat, base: nat)
    requires base <= x <= y < base + WRAP
    ensures x % WRAP == y % WRAP <==> x == y
  {
    if x % WRAP == y % WRAP {
      var q, r := x / WRAP, y / WRAP;
      assert y - x == WRAP * (r - q);
    }
  }

  lemma {:induction false} NoneMissed(s: State, n: nat, ops: seq<Op>, p: nat, base: nat)
    requires Inv(s, n) && Punctual(s, n) && EnabledRun(s, n, ops) && KeepLock(ops) && Since(s, base)
    requires Run(s, n, ops).notified < base + WRAP
    ensures !MissedIn(s, n, ops, p)
    decreases |ops|
  {
    hide Inv, InTime, Misses, Since;
    if ops != [] {
      var s', rest := Step(s, n, ops[0]), ops[1..];
      assert s.notified <= s'.notified;
      NotifiedGrows(s', n, rest);
      NoMiss(s, n, ops[0], p, base);
      SinceKept(s, n, ops[0], base);
      StepOk(s, n, ops[0]);
      forall b {:trigger InTime(s', b)} | b in s'.pc ensures InTime(s', b) { InTimeKept(s, n, ops[0], b); }
      assert forall i {:trigger rest[i]} :: 0 <= i < |rest| ==> rest[i] == ops[i + 1];
      hide Step, Enabled;
      NoneMissed(s', n, rest, p, base);
    }
  }

  lemma {:induction false} NotifiedGrows(s: State, n: nat, ops: seq<Op>)
    requires EnabledRun(s, n, ops)
    ensures s.notified <= Run(s, n, ops).notified
    decreases |ops|
  {
    if ops != [] { NotifiedGrows(Step(s, n, ops[0]), n, ops[1..]); }
  }

  /** No lost change: in every interleaving in which notifiers hold the lock, and as long as the counter has not come
      round, a process bound to sleep that has not seen the last change has somebody who still has to notify, or whose
      notification has not passed it. */
  lemma ChangesAreNotified(s: State, n: nat, ops: seq<Op>, p: nat)
    requires Start(s, n) && EnabledRun(s, n, ops) && KeepLock(ops) && p < n
    requires Run(s, n, ops).notified < s.notified + WRAP
    ensures Covered(Run(s, n, ops), p)
  {
    StartOk(s, n);
    assert Since(s, s.notified) && Covered(s, p) && p in s.pc;
    hide Run, EnabledRun, Inv, Start;
    NoneMissed(s, n, ops, p, s.notified);
    CoveredRun(s, n, ops, p);
  }

  // ----- a notifier that gives up the lock too early -----

  ghost predicate Leads(s: State, n: nat, ops: seq<Op>, t: State) {
    EnabledRun(s, n, ops) && Run(s, n, ops) == t
  }

  lemma {:induction false} LeadsNext(s: State, n: nat, ops: seq<Op>, t: State, op: Op)
    requires Leads(s, n, ops, t) && Enabled(t, n, op)
    ensures Leads(s, n, ops + [op], Step(t, n, op))
    decreases |ops|
  {
    hide Step, Enabled;
    if ops == [] {
      assert ops + [op] == [op] && [op][1..] == [] && t == s;
      assert EnabledRun(Step(s, n, op), n, []) && Run(Step(s, n, op), n, []) == Step(s, n, op);
    } else {
      assert (ops + [op])[1..] == ops[1..] + [op];
      LeadsNext(Step(s, n, ops[0]), n, ops[1..], t, op);
    }
  }

  lemma LeadsNothing(s: State, n: nat)
    ensures Leads(s, n, [], s)
  {
  }

  /** One step of the run, with where it leads said outright. */
  lemma LeadsTo(s: State, n: nat, ops: seq<Op>, t: State, op: Op, u: State)
    requires Leads(s, n, ops, t) && Enabled(t, n, op) && Step(t, n, op) == u
    ensures Leads(s, n, ops + [op], u)
  {
    hide Step, Enabled, EnabledRun, Run;
    LeadsNext(s, n, ops, t, op);
  }

  /** Three agents. */
  function Trio(x: Pc, y: Pc, z: Pc): map<nat, Pc> {
    map[0 := x, 1 := y, 2 := z]
  }

  lemma TrioFacts(x: Pc, y: Pc, z: Pc, w: Pc)
    ensures var t := Trio(x, y, z);
      && 0 in t && 1 in t && 2 in t && t[0] == x && t[1] == y && t[2] == z
      && t[0 := w] == Trio(w, y, z) && t[1 := w] == Trio(x, w, z) && t[2 := w] == Trio(x, y, w)
  {
  }

  /** Agent 1 takes the lock, changes what it protects, gives the lock up, and notifies. */
  function FirstNotice(): seq<Op> {
    [Acquire(1), Change(1), Unlock(1), NotifyLate(1)]
  }

  function FallAsleep(p: nat): seq<Op> {
    [TakeProcLock(p), ReleaseLock(p), Mark(p), Park(p)]
  }

  /** Process 0 has looked and waits; the scan of that notification wakes it. */
  function WokenEarly(): seq<Op> {
    FirstNotice() + [Acquire(0), WaitStart(0)] + FallAsleep(0) + [ScanOne(1)]
  }

  /** Agent 2 makes the next change before process 0 looks at the counter, and notifies after that. */
  function Overtaken(): seq<Op> {
    [Acquire(2), Change(2), Unlock(2)] + [Schedule(0), Resume(0), Reacquire(0), Finish(0, false)] +
    [NotifyLate(2), ScanOne(2)] + FallAsleep(0) + [ScanDone(1), ScanDone(2)]
  }

  /** One process and two interrupt handlers, all idle. */
  ghost predicate ThreeIdle(s: State) {
    Start(s, 1) && s.pc == Trio(Idle, Idle, Idle) && s.killed == {}
  }

  lemma FirstChange(s: State)
    requires ThreeIdle(s)
    ensures Leads(s, 1, [] + [Acquire(1)] + [Change(1)] + [Unlock(1)],
                  s.(version := s.version + 1, due := map[1 := s.version + 1]))
  {
    hide EnabledRun, Run, Leads, Trio, Moved;
    LeadsNothing(s, 1);
    TrioFacts(Idle, Idle, Idle, Inside);
    TrioFacts(Idle, Inside, Idle, Idle);
    var s1 := s.(pc := Trio(Idle, Inside, Idle), holder := Some(1));
    LeadsTo(s, 1, [], s, Acquire(1), s1);
    var s2 := s1.(version := s.version + 1, due := map[1 := s.version + 1]);
    LeadsTo(s, 1, [] + [Acquire(1)], s1, Change(1), s2);
    LeadsTo(s, 1, [] + [Acquire(1)] + [Change(1)], s2, Unlock(1), s2.(pc := Trio(Idle, Idle, Idle), holder := None));
  }

  lemma FirstNoticed(s: State)
    requires ThreeIdle(s)
    ensures Leads(s, 1, FirstNotice(), s.(pc := Trio(Idle, Scan(0, true), Idle), notified := s.notified + 1,
                                          version := s.version + 1))
  {
    hide EnabledRun, Run, Leads, Trio, Moved;
    FirstChange(s);
    TrioFacts(Idle, Idle, Idle, Scan(0, true));
    assert map[1 := s.version + 1] - {1} == map[];
    var s3 := s.(version := s.version + 1, due := map[1 := s.version + 1]);
    var s4 := s3.(pc := Trio(Idle, Scan(0, true), Idle), notified := s.notified + 1, due := map[]);
    LeadsTo(s, 1, [] + [Acquire(1)] + [Change(1)] + [Unlock(1)], s3, NotifyLate(1), s4);
    assert [] + [Acquire(1)] + [Change(1)] + [Unlock(1)] + [NotifyLate(1)] == FirstNotice();
  }

  /** The lock is given up for the process's own. */
  lemma GivesUpLock(s: State, ops: seq<Op>, t: State, snap: nat, y: Pc, z: Pc)
    requires Leads(s, 1, ops, t) && t.pc == Trio(Decided(snap), y, z) && t.holder == Some(0) && t.locked == {}
    ensures Leads(s, 1, ops + [TakeProcLock(0)] + [ReleaseLock(0)],
                  t.(pc := Trio(Released(snap), y, z), holder := None, locked := {0}))
  {
    hide EnabledRun, Run, Leads, Trio, Moved;
    TrioFacts(Decided(snap), y, z, Locked(snap));
    var t1 := t.(pc := Trio(Locked(snap), y, z), locked := {0});
    LeadsTo(s, 1, ops, t, TakeProcLock(0), t1);
    TrioFacts(Locked(snap), y, z, Released(snap));
    LeadsTo(s, 1, ops + [TakeProcLock(0)], t1, ReleaseLock(0), t1.(pc := Trio(Released(snap), y, z), holder := None));
  }

  /** From the call of `sleep` to the switch away. */
  lemma AsleepNow(s: State, ops: seq<Op>, t: State, snap: nat, y: Pc, z: Pc)
    requires Leads(s, 1, ops, t) && t.pc == Trio(Decided(snap), y, z) && t.holder == Some(0) && t.locked == {}
    requires t.asleep == {}
    ensures Leads(s, 1, ops + FallAsleep(0), t.(pc := Trio(Parked(snap), y, z), holder := None, asleep := {0}))
  {
    hide EnabledRun, Run, Leads, Trio, Moved;
    GivesUpLock(s, ops, t, snap, y, z);
    var t2 := t.(pc := Trio(Released(snap), y, z), holder := None, locked := {0});
    TrioFacts(Released(snap), y, z, Marked(snap));
    var t3 := t2.(pc := Trio(Marked(snap), y, z), asleep := {0});
    LeadsTo(s, 1, ops + [TakeProcLock(0)] + [ReleaseLock(0)], t2, Mark(0), t3);
    TrioFacts(Marked(snap), y, z, Parked(snap));
    assert {0} - {0} == {};
    var t4 := t3.(pc := Trio(Parked(snap), y, z), locked := {});
    LeadsTo(s, 1, ops + [TakeProcLock(0)] + [ReleaseLock(0)] + [Mark(0)], t3, Park(0), t4);
    assert ops + [TakeProcLock(0)] + [ReleaseLock(0)] + [Mark(0)] + [Park(0)] == ops + FallAsleep(0);
  }

  /** Awake again, with the counter as it was. */
  ghost function AfterFirst(s: State): State {
    s.(pc := Trio(Parked(s.notified + 1), Scan(1, true), Idle), notified := s.notified + 1, version := s.version + 1,
       seen := s.seen[0 := s.version + 1])
  }

  lemma EarlyWoken(s: State)
    requires ThreeIdle(s)
    ensures Leads(s, 1, WokenEarly(), AfterFirst(s))
  {
    hide EnabledRun, Run, Leads, Trio;
    var n, v, y := s.notified + 1, s.version + 1, Scan(0, true);
    var s1 := s.(pc := Trio(Idle, y, Idle), notified := n, version := v);
    FirstNoticed(s);
    TrioFacts(Idle, y, Idle, Inside);
    var s2 := s1.(pc := Trio(Inside, y, Idle), holder := Some(0));
    LeadsTo(s, 1, FirstNotice(), s1, Acquire(0), s2);
    TrioFacts(Inside, y, Idle, Decided(n));
    var s3 := s2.(pc := Trio(Decided(n), y, Idle), seen := s.seen[0 := v]);
    LeadsTo(s, 1, FirstNotice() + [Acquire(0)], s2, WaitStart(0), s3);
    AsleepNow(s, FirstNotice() + [Acquire(0)] + [WaitStart(0)], s3, n, y, Idle);
    var s4 := s3.(pc := Trio(Parked(n), y, Idle), holder := None, asleep := {0});
    var ops := FirstNotice() + [Acquire(0)] + [WaitStart(0)] + FallAsleep(0);
    TrioFacts(Parked(n), y, Idle, Scan(1, true));
    assert {0} - {0} == {};
    LeadsTo(s, 1, ops, s4, ScanOne(1), AfterFirst(s));
    assert ops + [ScanOne(1)] == WokenEarly();
  }

  /** The next change, under the lock, not yet notified. */
  lemma SecondChange(s: State, ops: seq<Op>, t: State, x: Pc, y: Pc)
    requires Leads(s, 1, ops, t) && t.pc == Trio(x, y, Idle) && t.holder == None && t.due == map[]
    ensures Leads(s, 1, ops + [Acquire(2), Change(2), Unlock(2)],
                  t.(version := t.version + 1, due := map[2 := t.version + 1]))
  {
    hide EnabledRun, Run, Leads, Trio;
    TrioFacts(x, y, Idle, Inside);
    var t1 := t.(pc := Trio(x, y, Inside), holder := Some(2));
    LeadsTo(s, 1, ops, t, Acquire(2), t1);
    TrioFacts(x, y, Inside, Idle);
    var t2 := t1.(version := t.version + 1, due := map[2 := t.version + 1]);
    LeadsTo(s, 1, ops + [Acquire(2)], t1, Change(2), t2);
    LeadsTo(s, 1, ops + [Acquire(2)] + [Change(2)], t2, Unlock(2), t2.(pc := Trio(x, y, Idle), holder := None));
    assert ops + [Acquire(2)] + [Change(2)] + [Unlock(2)] == ops + [Acquire(2), Change(2), Unlock(2)];
  }

  /** Scheduled again, back in `wait`. */
  lemma BackInWait(s: State, ops: seq<Op>, t: State, n: nat, y: Pc, z: Pc)
    requires Leads(s, 1, ops, t) && t.pc == Trio(Parked(n), y, z) && t.locked == {} && t.asleep == {} && t.killed == {}
    ensures Leads(s, 1, ops + [Schedule(0), Resume(0)], t.(pc := Trio(Back(n, false), y, z)))
  {
    hide EnabledRun, Run, Leads, Trio, Moved;
    TrioFacts(Parked(n), y, z, Resumed(n));
    var t1 := t.(pc := Trio(Resumed(n), y, z), locked := {0});
    LeadsTo(s, 1, ops, t, Schedule(0), t1);
    TrioFacts(Resumed(n), y, z, Back(n, false));
    assert {0} - {0} == {};
    LeadsTo(s, 1, ops + [Schedule(0)], t1, Resume(0), t.(pc := Trio(Back(n, false), y, z)));
    assert ops + [Schedule(0)] + [Resume(0)] == ops + [Schedule(0), Resume(0)];
  }

  /** The counter is looked at under the lock and found unchanged. */
  lemma LookedAgain(s: State, ops: seq<Op>, t: State, n: nat, y: Pc, z: Pc)
    requires Leads(s, 1, ops, t) && t.pc == Trio(Back(n, false), y, z) && t.notified == n && t.holder == None
    ensures Leads(s, 1, ops + [Reacquire(0), Finish(0, false)], t.(pc := Trio(Decided(n), y, z), holder := Some(0)))
  {
    hide EnabledRun, Run, Leads, Trio;
    TrioFacts(Back(n, false), y, z, Checking(n, false));
    var t1 := t.(pc := Trio(Checking(n, false), y, z), holder := Some(0));
    LeadsTo(s, 1, ops, t, Reacquire(0), t1);
    TrioFacts(Checking(n, false), y, z, Decided(n));
    LeadsTo(s, 1, ops + [Reacquire(0)], t1, Finish(0, false), t1.(pc := Trio(Decided(n), y, z)));
    assert ops + [Reacquire(0)] + [Finish(0, false)] == ops + [Reacquire(0), Finish(0, false)];
  }

  /** The notification of that change begins, without the lock. */
  lemma SecondNoticed(s: State, ops: seq<Op>, t: State, x: Pc, y: Pc, v: nat)
    requires Leads(s, 1, ops, t) && t.pc == Trio(x, y, Idle) && t.due == map[2 := v]
    ensures Leads(s, 1, ops + [NotifyLate(2)],
                  t.(pc := Trio(x, y, Scan(0, true)), notified := t.notified + 1, due := map[]))
  {
    hide EnabledRun, Run, Leads, Trio, Moved;
    TrioFacts(x, y, Idle, Scan(0, true));
    assert map[2 := v] - {2} == map[];
    LeadsTo(s, 1, ops, t, NotifyLate(2), t.(pc := Trio(x, y, Scan(0, true)), notified := t.notified + 1, due := map[]));
  }

  /** It passes the process before that one is asleep. */
  lemma PassedBy(s: State, ops: seq<Op>, t: State, n: nat, y: Pc)
    requires Leads(s, 1, ops, t) && t.pc == Trio(Decided(n), y, Scan(0, true)) && t.locked == {} && t.asleep == {}
    ensures Leads(s, 1, ops + [ScanOne(2)], t.(pc := Trio(Decided(n), y, Scan(1, true))))
  {
    hide EnabledRun, Run, Leads, Trio, Moved;
    TrioFacts(Decided(n), y, Scan(0, true), Scan(1, true));
    assert {} - {0} == t.asleep;
    LeadsTo(s, 1, ops, t, ScanOne(2), t.(pc := Trio(Decided(n), y, Scan(1, true))));
  }

  lemma BothDone(s: State, ops: seq<Op>, t: State, n: nat)
    requires Leads(s, 1, ops, t) && t.pc == Trio(Parked(n), Scan(1, true), Scan(1, true))
    ensures Leads(s, 1, ops + [ScanDone(1), ScanDone(2)], t.(pc := Trio(Parked(n), Idle, Idle)))
  {
    hide EnabledRun, Run, Leads, Trio;
    TrioFacts(Parked(n), Scan(1, true), Scan(1, true), Idle);
    var t1 := t.(pc := Trio(Parked(n), Idle, Scan(1, true)));
    LeadsTo(s, 1, ops, t, ScanDone(1), t1);
    TrioFacts(Parked(n), Idle, Scan(1, true), Idle);
    LeadsTo(s, 1, ops + [ScanDone(1)], t1, ScanDone(2), t.(pc := Trio(Parked(n), Idle, Idle)));
    assert ops + [ScanDone(1)] + [ScanDone(2)] == ops + [ScanDone(1), ScanDone(2)];
  }

  /** A wakeup lost to a notifier that has given up the lock: nobody is killed, nobody owes a notification, none is
      under way, and the process sleeps without having seen the last change. */
  lemma LateNotifyLoses(s: State)
    requires ThreeIdle(s)
    ensures EnabledRun(s, 1, WokenEarly() + Overtaken())
    ensures var t := Run(s, 1, WokenEarly() + Overtaken());
      && t.killed == {} && t.due == map[] && t.pc == Trio(Parked(s.notified + 1), Idle, Idle)
      && Sleeps(t, 0) && Behind(t, 0) && !Covered(t, 0)
  {
    hide EnabledRun, Run, Trio, WokenEarly, FallAsleep;
    var n, v, late := s.notified + 1, s.version + 1, Scan(1, true);
    var t0, ops0 := AfterFirst(s), WokenEarly();
    EarlyWoken(s);
    SecondChange(s, ops0, t0, Parked(n), late);
    var t1, ops1 := t0.(version := v + 1, due := map[2 := v + 1]), ops0 + [Acquire(2), Change(2), Unlock(2)];
    BackInWait(s, ops1, t1, n, late, Idle);
    LookedAgain(s, ops1 + [Schedule(0), Resume(0)], t1.(pc := Trio(Back(n, false), late, Idle)), n, late, Idle);
    var t2 := t1.(pc := Trio(Decided(n), late, Idle), holder := Some(0));
    var ops2 := ops1 + [Schedule(0), Resume(0)] + [Reacquire(0), Finish(0, false)];
    SecondNoticed(s, ops2, t2, Decided(n), late, v + 1);
    var t := t2.(pc := Trio(Decided(n), late, Scan(0, true)), notified := n + 1, due := map[]);
    PassedBy(s, ops2 + [NotifyLate(2)], t, n, late);
    var t3 := t2.(pc := Trio(Decided(n), late, late), notified := n + 1, due := map[]);
    var ops3 := ops2 + [NotifyLate(2)] + [ScanOne(2)];
    AsleepNow(s, ops3, t3, n, late, late);
    var t4 := t3.(pc := Trio(Parked(n), late, late), holder := None, asleep := {0});
    BothDone(s, ops3 + FallAsleep(0), t4, n);
    assert ops3 + FallAsleep(0) + [ScanDone(1), ScanDone(2)] == WokenEarly() + Overtaken();
    NobodyLeft(t4.(pc := Trio(Parked(n), Idle, Idle)), n);
  }

  lemma NobodyLeft(t: State, n: nat)
    requires t.pc == Trio(Parked(n), Idle, Idle) && t.due == map[] && 0 in t.asleep && 0 in t.seen
    requires t.seen[0] < t.version
    ensures Sleeps(t, 0) && Behind(t, 0) && !Covered(t, 0)
  {
  }

  // ----- progress -----

  /** Steps the process holding its own lock needs until it lets go. */
  function Delay(pc: Pc): nat {
    if pc.Locked? then 3 else if pc.Released? then 2 else if pc.Marked? || pc.Resumed? then 1 else 0
  }

  /** A notifier is never stuck: whoever keeps it from looking at a process can itself move on, needs no lock to
      do so, and is at most three steps from letting go. */
  lemma NotifierNotStuck(s: State, n: nat, a: nat)
    requires Inv(s, n) && a in s.pc && s.pc[a].Scan? && !Enabled(s, n, ScanOne(a)) && !Enabled(s, n, ScanDone(a))
    ensures s.pc[a].i in s.pc && 0 < Delay(s.pc[s.pc[a].i]) <= 3
    ensures exists op: Op {:trigger Enabled(s, n, op)} ::
      op.a == s.pc[a].i && Enabled(s, n, op) && Delay(Step(s, n, op).pc[op.a]) < Delay(s.pc[op.a])
  {
    assert AgentOk(s, n, a);
    var p := s.pc[a].i;
    assert p in s.locked;
    assert AgentOk(s, n, p);
    var op := match s.pc[p]
      case Locked(_) => ReleaseLock(p)
      case Released(_) => Mark(p)
      case Marked(_) => Park(p)
      case _ => Resume(p);
    assert Enabled(s, n, op);
  }

  /** The scan leaves nobody asleep that it has passed. */
  lemma ScanWakes(s: State, n: nat, a: nat)
    requires Inv(s, n) && Enabled(s, n, ScanOne(a))
    ensures var p := s.pc[a].i; p !in Step(s, n, ScanOne(a)).asleep && !Sleeps(Step(s, n, ScanOne(a)), p)
  {
    var p := s.pc[a].i;
    assert AgentOk(s, n, a);
    if p in s.pc { assert AgentOk(s, n, p); }
  }

  // ----- what the calls do when nobody interferes -----

  function Moves(pc: map<nat, Pc>, a: nat, x: Pc): map<nat, Pc> {
    pc[a := x]
  }

  lemma MovedTwice(pc: map<nat, Pc>, a: nat, x: Pc, y: Pc)
    ensures a in Moves(pc, a, x) && Moves(pc, a, x)[a] == x && Moves(Moves(pc, a, x), a, y) == Moves(pc, a, y)
  {
  }

  /** `sleep`: the process is asleep and the lock is free. */
  lemma SleepParks(s: State, n: nat, p: nat, snap: nat)
    requires Inv(s, n) && p in s.pc && s.pc[p] == Decided(snap)
    ensures Leads(s, n, FallAsleep(p), s.(pc := s.pc[p := Parked(snap)], holder := None, asleep := s.asleep + {p}))
  {
    assert AgentOk(s, n, p);
    hide Inv, EnabledRun, Run, Leads, Moved, AgentOk;
    LeadsNothing(s, n);
    SleepSteps(s, n, p, snap);
  }

  lemma SleepSteps(s: State, n: nat, p: nat, snap: nat)
    requires Leads(s, n, [], s) && p in s.pc && s.pc[p] == Decided(snap) && p !in s.locked
    ensures Leads(s, n, FallAsleep(p), s.(pc := s.pc[p := Parked(snap)], holder := None, asleep := s.asleep + {p}))
  {
    hide EnabledRun, Run, Leads, Moved, Moves;
    var s1 := s.(pc := Moves(s.pc, p, Locked(snap)), locked := s.locked + {p});
    MovesIs(s.pc, p);
    MovedTwice(s.pc, p, Locked(snap), Released(snap));
    LeadsTo(s, n, [], s, TakeProcLock(p), s1);
    MovesIs(s1.pc, p);
    var s2 := s1.(pc := Moves(s.pc, p, Released(snap)), holder := None);
    LeadsTo(s, n, [] + [TakeProcLock(p)], s1, ReleaseLock(p), s2);
    MovedTwice(s.pc, p, Released(snap), Marked(snap));
    MovesIs(s2.pc, p);
    var s3 := s2.(pc := Moves(s.pc, p, Marked(snap)), asleep := s.asleep + {p});
    LeadsTo(s, n, [] + [TakeProcLock(p)] + [ReleaseLock(p)], s2, Mark(p), s3);
    MovedTwice(s.pc, p, Marked(snap), Parked(snap));
    MovesIs(s3.pc, p);
    assert s.locked + {p} - {p} == s.locked;
    var s4 := s3.(pc := Moves(s.pc, p, Parked(snap)), locked := s.locked);
    LeadsTo(s, n, [] + [TakeProcLock(p)] + [ReleaseLock(p)] + [Mark(p)], s3, Park(p), s4);
    assert [] + [TakeProcLock(p)] + [ReleaseLock(p)] + [Mark(p)] + [Park(p)] == FallAsleep(p);
  }

  lemma MovesIs(pc: map<nat, Pc>, p: nat)
    ensures forall x: Pc {:trigger Moves(pc, p, x)} :: pc[p := x] == Moves(pc, p, x)
  {
  }

  /** Woken, the process is back in `wait` with the lock; it returns if the counter has moved, or it was killed and does
      not insist, and goes to sleep again otherwise. */
  lemma WokenLooks(s: State, n: nat, p: nat, snap: nat, force: bool)
    requires p in s.pc && s.pc[p] == Parked(snap) && p !in s.asleep && p !in s.locked && s.holder == None
    ensures var done := (p in s.killed && !force) || Moved(s, snap);
      Leads(s, n, [Schedule(p), Resume(p), Reacquire(p), Finish(p, force)],
            s.(pc := s.pc[p := if done then Inside else Decided(snap)], holder := Some(p)))
  {
    hide EnabledRun, Run, Leads, Moves, Moved;
    LeadsNothing(s, n);
    var k := p in s.killed;
    MovesIs(s.pc, p);
    var s1 := s.(pc := Moves(s.pc, p, Resumed(snap)), locked := s.locked + {p});
    LeadsTo(s, n, [], s, Schedule(p), s1);
    MovedTwice(s.pc, p, Resumed(snap), Back(snap, k));
    MovesIs(s1.pc, p);
    assert s.locked + {p} - {p} == s.locked;
    var s2 := s.(pc := Moves(s.pc, p, Back(snap, k)));
    LeadsTo(s, n, [] + [Schedule(p)], s1, Resume(p), s2);
    MovedTwice(s.pc, p, Back(snap, k), Checking(snap, k));
    MovesIs(s2.pc, p);
    var s3 := s.(pc := Moves(s.pc, p, Checking(snap, k)), holder := Some(p));
    LeadsTo(s, n, [] + [Schedule(p)] + [Resume(p)], s2, Reacquire(p), s3);
    Looked(s, n, [] + [Schedule(p)] + [Resume(p)] + [Reacquire(p)], s3, p, snap, k, force);
    assert [] + [Schedule(p)] + [Resume(p)] + [Reacquire(p)] + [Finish(p, force)] ==
      [Schedule(p), Resume(p), Reacquire(p), Finish(p, force)];
    var x := if (k && !force) || Moved(s, snap) then Inside else Decided(snap);
    MovedTwice(s.pc, p, Checking(snap, k), x);
    MovesIs(s3.pc, p);
    SameCount(s, s3, snap);
  }

  lemma SameCount(s: State, t: State, snap: nat)
    requires s.notified == t.notified
    ensures Moved(s, snap) == Moved(t, snap)
  {
  }

  lemma Looked(s: State, n: nat, ops: seq<Op>, t: State, p: nat, snap: nat, k: bool, force: bool)
    requires Leads(s, n, ops, t) && p in t.pc && t.pc[p] == Checking(snap, k)
    ensures Leads(s, n, ops + [Finish(p, force)],
                  t.(pc := t.pc[p := if (k && !force) || Moved(t, snap) then Inside else Decided(snap)]))
  {
    hide EnabledRun, Run, Leads, Moved;
    LeadsNext(s, n, ops, t, Finish(p, force));
  }

  /** A killed process does not go to sleep: `sleep` refuses and it has the lock as before. */
  lemma KilledRefuses(s: State, n: nat, p: nat, snap: nat)
    requires p in s.pc && s.pc[p] == Decided(snap) && p !in s.locked && p in s.killed
    ensures Leads(s, n, [TakeProcLock(p), Refuse(p)], s.(pc := s.pc[p := Inside]))
  {
    hide EnabledRun, Run, Leads, Moved, Moves;
    LeadsNothing(s, n);
    MovesIs(s.pc, p);
    var s1 := s.(pc := Moves(s.pc, p, Locked(snap)), locked := s.locked + {p});
    LeadsTo(s, n, [], s, TakeProcLock(p), s1);
    MovedTwice(s.pc, p, Locked(snap), Inside);
    MovesIs(s1.pc, p);
    assert s.locked + {p} - {p} == s.locked;
    LeadsTo(s, n, [] + [TakeProcLock(p)], s1, Refuse(p), s.(pc := Moves(s.pc, p, Inside)));
    assert [] + [TakeProcLock(p)] + [Refuse(p)] == [TakeProcLock(p), Refuse(p)];
  }

  /** A kill marks the process and wakes it; nothing else changes. */
  lemma KillWakes(s: State, n: nat, p: nat)
    requires Enabled(s, n, Kill(p))
    ensures var t := Step(s, n, Kill(p));
      && p in t.killed && p !in t.asleep && t == s.(killed := t.killed, asleep := t.asleep)
      && forall q: nat {:trigger q in t.killed} {:trigger q in t.asleep} ::
           q != p ==> (q in t.killed <==> q in s.killed) && (q in t.asleep <==> q in s.asleep)
  {
  }

  function Scans(a: nat, k: nat): seq<Op> {
    if k == 0 then [] else Scans(a, k - 1) + [ScanOne(a)]
  }

  lemma {:induction false} ScansWake(s: State, n: nat, ops: seq<Op>, t: State, a: nat, late: bool, k: nat)
    requires Leads(s, n, ops, t) && a in t.pc && t.pc[a] == Scan(0, late) && t.locked == {} && k <= n
    ensures Leads(s, n, ops + Scans(a, k),
                  t.(pc := t.pc[a := Scan(k, late)], asleep := set p | p in t.asleep && p >= k))
    decreases k
  {
    hide EnabledRun, Run, Leads, Moved;
    if k == 0 {
      assert ops + [] == ops && t.pc[a := Scan(0, late)] == t.pc && (set p | p in t.asleep && p >= 0) == t.asleep;
    } else {
      ScansWake(s, n, ops, t, a, late, k - 1);
      var u := t.(pc := t.pc[a := Scan(k - 1, late)], asleep := set p | p in t.asleep && p >= k - 1);
      var v := t.(pc := t.pc[a := Scan(k, late)], asleep := set p | p in t.asleep && p >= k);
      assert u.asleep - {k - 1} == v.asleep && u.pc[a := Scan(k, late)] == v.pc;
      LeadsTo(s, n, ops + Scans(a, k - 1), u, ScanOne(a), v);
      assert ops + Scans(a, k - 1) + [ScanOne(a)] == ops + Scans(a, k);
    }
  }

  /** `notify`, with the lock or without, when no process lock is taken: one notification more and nobody asleep; the
      notifier is where it was. */
  lemma NotifyWakesAll(s: State, n: nat, a: nat)
    requires Inv(s, n) && s.locked == {} && a in s.pc && (s.pc[a].Inside? || s.pc[a].Idle?)
    ensures var op := if s.pc[a].Idle? then NotifyLate(a) else NotifyStart(a);
      Leads(s, n, [op] + Scans(a, n) + [ScanDone(a)], s.(asleep := {}, notified := s.notified + 1, due := s.due - {a}))
  {
    NobodyAbove(s, n);
    hide Inv, EnabledRun, Run, Leads, Moved, Scans;
    var late := s.pc[a].Idle?;
    var op := if late then NotifyLate(a) else NotifyStart(a);
    LeadsNothing(s, n);
    var s1 := s.(pc := s.pc[a := Scan(0, late)], notified := s.notified + 1, due := s.due - {a});
    LeadsTo(s, n, [], s, op, s1);
    assert [] + [op] == [op];
    ScansWake(s, n, [op], s1, a, late, n);
    assert s1.pc[a := Scan(n, late)] == s.pc[a := Scan(n, late)];
    var s2 := s1.(pc := s.pc[a := Scan(n, late)], asleep := {});
    assert s2.pc[a := s.pc[a]] == s.pc;
    LeadsTo(s, n, [op] + Scans(a, n), s2, ScanDone(a), s2.(pc := s.pc));
  }

  lemma NobodyAbove(s: State, n: nat)
    requires Inv(s, n)
    ensures (set p | p in s.asleep && p >= n) == {}
  {
    forall p | p in s.asleep ensures p < n { assert AgentOk(s, n, p); }
  }

  // ----- what the operations alone tell -----

  /** Who holds the lock after `ops`: the last to take it, unless it was given up since. */
  function LastHolder(h: Option<nat>, ops: seq<Op>): Option<nat>
    decreases |ops|
  {
    if ops == [] then h
    else
      LastHolder(match ops[0]
                 case Acquire(a) => Some(a)
                 case Reacquire(a) => Some(a)
                 case Unlock(_) => None
                 case ReleaseLock(_) => None
                 case _ => h, ops[1..])
  }

  /** How often `ops` notify, and how often they change what the lock protects. */
  function Tally(ops: seq<Op>): (nat, nat)
    decreases |ops|
  {
    if ops == [] then (0, 0)
    else
      var (i, j) := Tally(ops[1..]);
      ((if ops[0].NotifyStart? || ops[0].NotifyLate? then 1 else 0) + i, (if ops[0].Change? then 1 else 0) + j)
  }

  /** In every run the lock is with the last to take it, the counter has moved once per notification, the version once
      per change, and those killed are those a kill was for. */
  lemma {:induction false} OperationsTell(s: State, n: nat, ops: seq<Op>, p: nat)
    requires EnabledRun(s, n, ops)
    ensures var t := Run(s, n, ops);
      && t.holder == LastHolder(s.holder, ops)
      && t.notified == s.notified + Tally(ops).0 && t.version == s.version + Tally(ops).1
      && (p in t.killed <==> p in s.killed || Kill(p) in ops)
    decreases |ops|
  {
    hide Step, Enabled;
    if ops != [] {
      StepTells(s, n, ops[0], p);
      OperationsTell(Step(s, n, ops[0]), n, ops[1..], p);
      assert ops == [ops[0]] + ops[1..];
    }
  }

  lemma StepTells(s: State, n: nat, op: Op, p: nat)
    requires Enabled(s, n, op)
    ensures var t := Step(s, n, op);
      && t.holder == (match op
                      case Acquire(a) => Some(a)
                      case Reacquire(a) => Some(a)
                      case Unlock(_) => None
                      case ReleaseLock(_) => None
                      case _ => s.holder)
      && t.notified == s.notified + (if Notifies(op) then 1 else 0)
      && t.version == s.version + (if op.Change? then 1 else 0)
      && (p in t.killed <==> p in s.killed || op == Kill(p))
  {
    hide Moved;
  }

  /** Somewhere in `wait`, with what it read of the counter; a noticed kill was one. */
  ghost predicate Waiting(s: State, a: nat) {
    && a in s.pc && InWait(s.pc[a]) && s.pc[a].snap == s.notified
    && ((s.pc[a].Back? || s.pc[a].Checking?) && s.pc[a].killed ==> a in s.killed)
  }

  ghost predicate Notifies(op: Op) {
    op.NotifyStart? || op.NotifyLate?
  }

  /** Without a notification nobody leaves `wait` but a killed caller. */
  lemma {:induction false} StaysWaiting(s: State, n: nat, ops: seq<Op>, a: nat)
    requires Waiting(s, a) && EnabledRun(s, n, ops)
    requires forall i {:trigger ops[i]} :: 0 <= i < |ops| ==> !Notifies(ops[i])
    ensures s.killed <= Run(s, n, ops).killed
    ensures a in Run(s, n, ops).killed || Waiting(Run(s, n, ops), a)
    decreases |ops|
  {
    if ops != [] {
      var s' := Step(s, n, ops[0]);
      assert s.killed <= s'.killed;
      if Waiting(s', a) {
        StaysWaiting(s', n, ops[1..], a);
      } else {
        assert a in s.killed;
        KillsLast(s', n, ops[1..]);
      }
    }
  }

  lemma {:induction false} KillsLast(s: State, n: nat, ops: seq<Op>)
    requires EnabledRun(s, n, ops)
    ensures s.killed <= Run(s, n, ops).killed
    decreases |ops|
  {
    if ops != [] { KillsLast(Step(s, n, ops[0]), n, ops[1..]); }
  }

  /** No return without a cause: from the call of `wait`, in every interleaving, either a notification has begun, or
      the caller was killed, or it is still waiting for one. */
  lemma WaitReturnsForCause(s: State, n: nat, a: nat, ops: seq<Op>)
    requires Enabled(s, n, WaitStart(a)) && EnabledRun(Step(s, n, WaitStart(a)), n, ops)
    ensures var t := Run(Step(s, n, WaitStart(a)), n, ops);
      (exists i {:trigger ops[i]} :: 0 <= i < |ops| && Notifies(ops[i])) || a in t.killed || Waiting(t, a)
  {
    hide Run, EnabledRun;
    if forall i {:trigger ops[i]} :: 0 <= i < |ops| ==> !Notifies(ops[i]) {
      StaysWaiting(Step(s, n, WaitStart(a)), n, ops, a);
    }
  }
}
