/** The life of processes: fork, exit, wait and kill as interleaved steps, each one section of code under the
    wait lock or a process lock. */
module Processes {
  import opened Options

  const NPROC: nat := 64
  const PID_LIMIT: nat := 0x1_0000_0000

  /** Runnable, running and sleeping processes are all alive. */
  datatype Status = Unused | Used | Alive | Zombie(code: int)

  /** A slot of the process table; `pid` 0 is none. */
  datatype Proc = Proc(status: Status, pid: nat, parent: Option<nat>, killed: bool)

  datatype Target = AnyProcess | Process(pid: nat)

  /** What the thread of a process is doing. From `Exiting` to `Notified` it holds the wait lock. `Dozing` it has
      given the wait lock up but holds its own lock; `Asleep` it sleeps on its condition variable inside `wait`. */
  datatype Act =
    | Calm
    | Forking(child: nat)
    | Linked(child: nat)
    | Exiting(i: nat, code: int)             // the slots below i have no children of this process
    | Rousing(i: nat, j: nat, code: int)     // notifying init for slot i, the processes below j are done
    | Telling(j: nat, code: int)             // notifying the parent
    | Notified(code: int)
    | Dozing(target: Target)
    | Asleep(target: Target)
    | Woken(target: Target)

  /** `exited` and `reaped` record every exit status and every answer of `wait`. */
  datatype State = State(procs: seq<Proc>, act: seq<Act>, nextPid: nat, holder: Option<nat>,
                         exited: map<nat, int>, reaped: seq<(nat, int)>)

  datatype Op =
    | ForkAllocate(p: nat, child: nat)
    | ForkAbort(p: nat)
    | ForkLink(p: nat)
    | ForkStart(p: nat)
    | ExitStart(p: nat, code: int)
    | Reparent(p: nat)
    | Rouse(p: nat)
    | RouseDone(p: nat)
    | TellStart(p: nat)
    | Tell(p: nat)
    | TellDone(p: nat)
    | BecomeZombie(p: nat)
    | Wait(p: nat, target: Target)
    | FallAsleep(p: nat)
    | WaitAgain(p: nat, gaveUp: bool)
    | Kill(p: nat)

  // ----- the table -----

  /** `is_child_of` and the target test of `wait`. */
  predicate Matches(c: Proc, p: nat, target: Target) {
    c.parent == Some(p) && (target.AnyProcess? || c.pid == target.pid)
  }

  /** The first child `wait` can reap. */
  function FirstZombie(procs: seq<Proc>, p: nat, target: Target): (r: Option<nat>)
    ensures r.Some? ==> r.value < |procs| && Matches(procs[r.value], p, target) && procs[r.value].status.Zombie?
    ensures r.Some? ==>
      forall c {:trigger procs[c]} :: 0 <= c < r.value ==> !(Matches(procs[c], p, target) && procs[c].status.Zombie?)
    ensures r.None? ==>
      forall c {:trigger procs[c]} :: 0 <= c < |procs| ==> !(Matches(procs[c], p, target) && procs[c].status.Zombie?)
    decreases |procs|
  {
    if procs == [] then None
    else
      var r := FirstZombie(procs[..|procs| - 1], p, target);
      if r.Some? then r
      else if Matches(procs[|procs| - 1], p, target) && procs[|procs| - 1].status.Zombie? then Some(|procs| - 1)
      else None
  }

  ghost predicate HasChild(procs: seq<Proc>, p: nat, target: Target) {
    exists c {:trigger procs[c]} :: 0 <= c < |procs| && Matches(procs[c], p, target)
  }

  function Free(): Proc {
    Proc(Unused, 0, None, false)
  }

  /** A sleeper is made runnable. */
  function Wake(act: seq<Act>, q: nat): seq<Act> {
    if q < |act| && act[q].Asleep? then act[q := Woken(act[q].target)] else act
  }

  predicate HoldsWaitLock(a: Act) {
    a.Exiting? || a.Rousing? || a.Telling? || a.Notified?
  }

  /** Asleep, or past the point where only a wake-up helps. */
  predicate Sleepy(a: Act) {
    a.Dozing? || a.Asleep?
  }

  // ----- steps -----

  ghost predicate Enabled(s: State, init: nat, op: Op) {
    op.p < NPROC && |s.procs| == |s.act| == NPROC &&
    var p, act := op.p, s.act[op.p];
    match op
    case ForkAllocate(_, child) =>
      && act.Calm? && s.procs[p].status.Alive? && s.nextPid < PID_LIMIT
      && child < NPROC && s.procs[child].status.Unused?
    case ForkAbort(_) => act.Forking? && act.child < NPROC
    case ForkLink(_) => act.Forking? && s.holder.None? && act.child < NPROC
    case ForkStart(_) => act.Linked? && act.child < NPROC
    case ExitStart(_, code) => act.Calm? && s.procs[p].status.Alive? && s.holder.None? && p != init
    case Reparent(_) => act.Exiting? && act.i < NPROC
    case Rouse(_) => act.Rousing? && act.j < NPROC && !s.act[act.j].Dozing?
    case RouseDone(_) => act.Rousing? && act.j == NPROC
    case TellStart(_) => act.Exiting? && act.i == NPROC
    case Tell(_) => act.Telling? && act.j < NPROC && !s.act[act.j].Dozing?
    case TellDone(_) => act.Telling? && act.j == NPROC
    case BecomeZombie(_) => act.Notified?
    case Wait(_, target) => act.Calm? && s.procs[p].status.Alive? && s.holder.None?
    case FallAsleep(_) => act.Dozing?
    case WaitAgain(_, gaveUp) => act.Woken? && s.holder.None? && (gaveUp ==> s.procs[p].killed)
    case Kill(_) => !s.procs[p].status.Unused? && !act.Dozing?
  }

  /** One pass of the loop of `wait` under the wait lock. */
  ghost function WaitScan(s: State, p: nat, target: Target): State
    requires |s.procs| == |s.act| == NPROC && p < NPROC
  {
    match FirstZombie(s.procs, p, target)
    case Some(z) =>
      s.(procs := s.procs[z := Free()], act := s.act[p := Calm],
         reaped := s.reaped + [(s.procs[z].pid, s.procs[z].status.code)])
    case None =>
      if !HasChild(s.procs, p, target) || s.procs[p].killed then s.(act := s.act[p := Calm])
      else s.(act := s.act[p := Dozing(target)])
  }

  ghost function Step(s: State, init: nat, op: Op): State
    requires Enabled(s, init, op) && init < NPROC
  {
    var p, act := op.p, s.act[op.p];
    match op
    case ForkAllocate(_, child) =>
      s.(procs := s.procs[child := Proc(Used, s.nextPid, None, false)], nextPid := s.nextPid + 1,
         act := s.act[p := Forking(child)])
    case ForkAbort(_) => s.(procs := s.procs[act.child := Free()], act := s.act[p := Calm])
    case ForkLink(_) =>
      s.(procs := s.procs[act.child := s.procs[act.child].(parent := Some(p))], act := s.act[p := Linked(act.child)])
    case ForkStart(_) =>
      s.(procs := s.procs[act.child := s.procs[act.child].(status := Alive)], act := s.act[p := Calm])
    case ExitStart(_, code) => s.(act := s.act[p := Exiting(0, code)], holder := Some(p))
    case Reparent(_) =>
      if s.procs[act.i].parent == Some(p) then
        s.(procs := s.procs[act.i := s.procs[act.i].(parent := Some(init))],
           act := s.act[p := Rousing(act.i, 0, act.code)])
      else s.(act := s.act[p := Exiting(act.i + 1, act.code)])
    case Rouse(_) =>
      s.(act := (if act.j == init then Wake(s.act, init) else s.act)[p := Rousing(act.i, act.j + 1, act.code)])
    case RouseDone(_) => s.(act := s.act[p := Exiting(act.i + 1, act.code)])
    case TellStart(_) =>
      s.(act := s.act[p := if s.procs[p].parent.Some? then Telling(0, act.code) else Notified(act.code)])
    case Tell(_) =>
      var act' := if Some(act.j) == s.procs[p].parent then Wake(s.act, act.j) else s.act;
      s.(act := act'[p := Telling(act.j + 1, act.code)])
    case TellDone(_) => s.(act := s.act[p := Notified(act.code)])
    case BecomeZombie(_) =>
      s.(procs := s.procs[p := s.procs[p].(status := Zombie(act.code))], act := s.act[p := Calm], holder := None,
         exited := s.exited[s.procs[p].pid := act.code])
    case Wait(_, target) => WaitScan(s, p, target)
    case FallAsleep(_) => s.(act := s.act[p := Asleep(act.target)])
    case WaitAgain(_, gaveUp) => if gaveUp then s.(act := s.act[p := Calm]) else WaitScan(s, p, act.target)
    case Kill(_) => s.(procs := s.procs[p := s.procs[p].(killed := true)], act := Wake(s.act, p))
  }

  // ----- invariant -----

  /** A slot and its parent. */
  ghost predicate ProcOk(procs: seq<Proc>, nextPid: nat, init: nat, c: nat)
    requires |procs| == NPROC && c < NPROC
  {
    var v := procs[c];
    && (v.status.Unused? ==> v.pid == 0 && v.parent == None)
    && (!v.status.Unused? ==> 0 < v.pid < nextPid)
    && (v.parent.Some? ==>
          v.parent.value < NPROC && procs[v.parent.value].status.Alive? && procs[v.parent.value].pid < v.pid)
    && (v.parent.None? ==> v.status.Unused? || v.status.Used? || c == init)
    && (c == init ==> v.status.Alive? && v.pid == 1 && v.parent == None)
    && (c != init && !v.status.Unused? ==> v.pid > 1)
  }

  /** The notification of its parent has passed it, or is complete. */
  predicate Told(a: Act, q: nat) {
    a.Notified? || (a.Telling? && q < a.j)
  }

  ghost predicate ActOk(procs: seq<Proc>, act: seq<Act>, holder: Option<nat>, init: nat, p: nat)
    requires |procs| == |act| == NPROC && p < NPROC
  {
    var a, parent := act[p], procs[p].parent;
    && (!a.Calm? ==> procs[p].status.Alive?)
    && (HoldsWaitLock(a) <==> holder == Some(p))
    && (holder == Some(p) ==> p != init)
    && (a.Forking? ==>
         a.child < NPROC && procs[a.child].status.Used? && procs[a.child].parent == None &&
         procs[p].pid < procs[a.child].pid)
    && (a.Linked? ==> a.child < NPROC && procs[a.child].status.Used? && procs[a.child].parent == Some(p))
    && (a.Exiting? ==> a.i <= NPROC) && (a.Rousing? ==> a.i < NPROC && a.j <= NPROC) && (a.Telling? ==> a.j <= NPROC)
    && (parent.Some? && parent.value < NPROC && Told(a, parent.value) ==> !Sleepy(act[parent.value]))
  }

  /** The holder of the wait lock is notifying init and has not yet come to it. */
  ghost predicate Coming(act: seq<Act>, holder: Option<nat>, init: nat, p: nat) {
    p == init && holder.Some? && holder.value < |act| && act[holder.value].Rousing? && act[holder.value].j <= p
  }

  /** Slots that can still refer to an exiting process: those its scan has not passed. */
  predicate Ahead(a: Act, c: nat) {
    (a.Exiting? ==> a.i <= c) && (a.Rousing? ==> a.i < c) && !a.Telling? && !a.Notified?
  }

  /** Children of an exiting process are still ahead of its scan; a sleeper with a child to reap is about to be
      notified. */
  ghost predicate Kin(procs: seq<Proc>, act: seq<Act>, holder: Option<nat>, init: nat, c: nat, p: nat)
    requires |procs| == |act| == NPROC && c < NPROC && p < NPROC
  {
    && (procs[c].parent == Some(p) ==> Ahead(act[p], c))
    && (Sleepy(act[p]) && Matches(procs[c], p, act[p].target) && procs[c].status.Zombie? ==>
         Coming(act, holder, init, p))
  }

  predicate Forks(a: Act) {
    a.Forking? || a.Linked?
  }

  /** Two slots in use have different pids, two forks different children. */
  ghost predicate Apart(procs: seq<Proc>, act: seq<Act>, c: nat, p: nat)
    requires |procs| == |act| == NPROC && c < NPROC && p < NPROC
  {
    c != p ==>
      && (!procs[c].status.Unused? ==> procs[c].pid != procs[p].pid)
      && (Forks(act[c]) && Forks(act[p]) ==> act[c].child != act[p].child)
  }

  ghost predicate PairOk(procs: seq<Proc>, act: seq<Act>, holder: Option<nat>, init: nat, c: nat, p: nat)
    requires |procs| == |act| == NPROC && c < NPROC && p < NPROC
  {
    Kin(procs, act, holder, init, c, p) && Apart(procs, act, c, p)
  }

  ghost predicate TableOk(procs: seq<Proc>, act: seq<Act>, nextPid: nat, holder: Option<nat>, init: nat) {
    && |procs| == |act| == NPROC && init < NPROC && 1 < nextPid <= PID_LIMIT
    && (forall c: nat {:trigger ProcOk(procs, nextPid, init, c)} :: c < NPROC ==> ProcOk(procs, nextPid, init, c))
    && (forall p: nat {:trigger ActOk(procs, act, holder, init, p)} :: p < NPROC ==> ActOk(procs, act, holder, init, p))
    && (forall c: nat, p: nat {:trigger PairOk(procs, act, holder, init, c, p)} :: c < NPROC && p < NPROC ==>
          PairOk(procs, act, holder, init, c, p))
    && (holder.Some? ==> holder.value < NPROC)
  }

  /** Every exit status is either still with its zombie or was handed out once. */
  ghost predicate HistoryOk(procs: seq<Proc>, nextPid: nat, exited: map<nat, int>, reaped: seq<(nat, int)>) {
    && (forall c {:trigger procs[c]} :: 0 <= c < |procs| ==>
          (procs[c].status.Zombie? ==> procs[c].pid in exited && exited[procs[c].pid] == procs[c].status.code)
          && (!procs[c].status.Unused? && !procs[c].status.Zombie? ==> procs[c].pid !in exited))
    && (forall i {:trigger reaped[i]} :: 0 <= i < |reaped| ==>
         reaped[i].0 in exited && exited[reaped[i].0] == reaped[i].1)
    && (forall i, c {:trigger reaped[i], procs[c]} ::
         0 <= i < |reaped| && 0 <= c < |procs| && !procs[c].status.Unused? ==> reaped[i].0 != procs[c].pid)
    && (forall i, j {:trigger reaped[i], reaped[j]} :: 0 <= i < j < |reaped| ==> reaped[i].0 != reaped[j].0)
    && (forall pid {:trigger pid in exited} :: pid in exited ==>
         pid < nextPid && (InZombie(procs, pid) || InReaped(reaped, pid)))
  }

  ghost predicate InZombie(procs: seq<Proc>, pid: nat) {
    exists c {:trigger procs[c]} :: 0 <= c < |procs| && procs[c].status.Zombie? && procs[c].pid == pid
  }

  ghost predicate InReaped(reaped: seq<(nat, int)>, pid: nat) {
    exists i {:trigger reaped[i]} :: 0 <= i < |reaped| && reaped[i].0 == pid
  }

  ghost predicate Inv(s: State, init: nat) {
    TableOk(s.procs, s.act, s.nextPid, s.holder, init) && HistoryOk(s.procs, s.nextPid, s.exited, s.reaped)
  }

  // ----- preservation -----

  /** What the invariant says about one slot and one thread. */
  lemma At(s: State, init: nat, c: nat, p: nat)
    requires Inv(s, init) && c < NPROC && p < NPROC
    ensures init < NPROC && 1 < s.nextPid && (s.holder.Some? ==> s.holder.value < NPROC)
    ensures ProcOk(s.procs, s.nextPid, init, c) && ActOk(s.procs, s.act, s.holder, init, p)
    ensures PairOk(s.procs, s.act, s.holder, init, c, p)
    ensures s.procs[c].parent.Some? ==>
      s.procs[c].parent.value < NPROC && PairOk(s.procs, s.act, s.holder, init, c, s.procs[c].parent.value)
  {
    hide HistoryOk;
    assert ProcOk(s.procs, s.nextPid, init, c);
  }

  /** The steps other than the passes of `wait`. */
  ghost predicate Plain(s: State, init: nat, op: Op) {
    Inv(s, init) && Enabled(s, init, op) && !op.Wait? && !op.WaitAgain?
  }

  lemma StepProc(s: State, init: nat, op: Op, c: nat)
    requires Plain(s, init, op) && c < NPROC
    ensures ProcOk(Step(s, init, op).procs, Step(s, init, op).nextPid, init, c)
  {
    hide Inv;
    At(s, init, c, op.p);
    At(s, init, init, op.p);
    At(s, init, op.p, op.p);
  }

  lemma StepOwnAct(s: State, init: nat, op: Op)
    requires Plain(s, init, op)
    ensures var s' := Step(s, init, op); ActOk(s'.procs, s'.act, s'.holder, init, op.p)
  {
    hide Inv;
    At(s, init, op.p, op.p);
  }

  lemma StepOtherAct(s: State, init: nat, op: Op, q: nat)
    requires Plain(s, init, op) && q < NPROC && q != op.p
    ensures var s' := Step(s, init, op); ActOk(s'.procs, s'.act, s'.holder, init, q)
  {
    hide Inv, Kin;
    At(s, init, op.p, q);
    At(s, init, q, op.p);
  }

  lemma StepKin(s: State, init: nat, op: Op, c: nat, q: nat)
    requires Plain(s, init, op) && c < NPROC && q < NPROC
    ensures var s' := Step(s, init, op); Kin(s'.procs, s'.act, s'.holder, init, c, q)
  {
    hide Inv, Apart;
    At(s, init, c, q);
    At(s, init, c, op.p);
  }

  lemma StepPidsApart(s: State, init: nat, op: Op, c: nat, q: nat)
    requires Plain(s, init, op) && c < NPROC && q < NPROC && c != q
    ensures var s' := Step(s, init, op); !s'.procs[c].status.Unused? ==> s'.procs[c].pid != s'.procs[q].pid
  {
    hide Inv, Kin, Wake;
    At(s, init, c, q);
    At(s, init, q, c);
    At(s, init, op.p, op.p);
  }

  lemma StepForksApart(s: State, init: nat, op: Op, c: nat, q: nat)
    requires Plain(s, init, op) && c < NPROC && q < NPROC && c != q
    ensures var s' := Step(s, init, op); Forks(s'.act[c]) && Forks(s'.act[q]) ==> s'.act[c].child != s'.act[q].child
  {
    hide Inv, Kin, ProcOk;
    At(s, init, c, q);
    At(s, init, q, c);
  }

  lemma StepApart(s: State, init: nat, op: Op, c: nat, q: nat)
    requires Plain(s, init, op) && c < NPROC && q < NPROC
    ensures var s' := Step(s, init, op); |s'.procs| == |s'.act| == NPROC && Apart(s'.procs, s'.act, c, q)
  {
    hide Inv, Kin, ProcOk, ActOk;
    At(s, init, c, q);
    if c != q {
      StepPidsApart(s, init, op, c, q);
      StepForksApart(s, init, op, c, q);
    }
  }

  /** A thread leaves `wait`, or gets ready to sleep in it with no child to reap. */
  lemma SetActOk(s: State, init: nat, p: nat, a: Act)
    requires Inv(s, init) && p < NPROC && (s.act[p].Calm? || s.act[p].Woken?) && s.procs[p].status.Alive?
    requires s.holder.None?
    requires a.Calm? || (a.Dozing? && FirstZombie(s.procs, p, a.target).None?)
    ensures TableOk(s.procs, s.act[p := a], s.nextPid, s.holder, init)
  {
    hide HistoryOk, FirstZombie;
    var act' := s.act[p := a];
    forall q: nat {:trigger ActOk(s.procs, act', s.holder, init, q)} | q < NPROC
      ensures ActOk(s.procs, act', s.holder, init, q)
    {
      At(s, init, p, q);
    }
    forall c: nat, q: nat {:trigger PairOk(s.procs, act', s.holder, init, c, q)} | c < NPROC && q < NPROC
      ensures PairOk(s.procs, act', s.holder, init, c, q)
    {
      At(s, init, c, q);
    }
  }

  lemma ReapOk(s: State, init: nat, p: nat, z: nat)
    requires Inv(s, init) && p < NPROC && z < NPROC && s.procs[z].status.Zombie?
    ensures TableOk(s.procs[z := Free()], s.act, s.nextPid, s.holder, init)
  {
    hide HistoryOk;
    var procs' := s.procs[z := Free()];
    forall c: nat {:trigger ProcOk(procs', s.nextPid, init, c)} | c < NPROC ensures ProcOk(procs', s.nextPid, init, c) {
      At(s, init, c, p);
    }
    forall q: nat {:trigger ActOk(procs', s.act, s.holder, init, q)} | q < NPROC
      ensures ActOk(procs', s.act, s.holder, init, q)
    {
      At(s, init, q, q);
    }
    forall c: nat, q: nat {:trigger PairOk(procs', s.act, s.holder, init, c, q)} | c < NPROC && q < NPROC
      ensures PairOk(procs', s.act, s.holder, init, c, q)
    {
      At(s, init, c, q);
      At(s, init, q, c);
    }
  }

  lemma WaitScanOk(s: State, init: nat, p: nat, target: Target)
    requires Inv(s, init) && p < NPROC && (s.act[p].Calm? || s.act[p].Woken?) && s.procs[p].status.Alive?
    requires s.holder.None?
    ensures var s' := WaitScan(s, p, target);
      TableOk(s'.procs, s'.act, s'.nextPid, s'.holder, init) && HistoryOk(s'.procs, s'.nextPid, s'.exited, s'.reaped)
  {
    hide FirstZombie, ProcOk, ActOk, PairOk, HistoryOk;
    var r := FirstZombie(s.procs, p, target);
    if r.Some? {
      var z := r.value;
      ReapOk(s, init, p, z);
      PidsDiffer(s, init, z);
      HistoryReap(s.procs, s.nextPid, s.exited, s.reaped, z);
      SetActOk(s.(procs := s.procs[z := Free()], reaped := s.reaped + [(s.procs[z].pid, s.procs[z].status.code)]), init,
               p, Calm);
    } else if !HasChild(s.procs, p, target) || s.procs[p].killed {
      SetActOk(s, init, p, Calm);
    } else {
      SetActOk(s, init, p, Dozing(target));
    }
  }

  lemma PlainStep(s: State, init: nat, op: Op)
    requires Plain(s, init, op)
    ensures var s' := Step(s, init, op); TableOk(s'.procs, s'.act, s'.nextPid, s'.holder, init)
  {
    var s' := Step(s, init, op);
    hide Plain, HistoryOk, ProcOk, ActOk, Kin, Apart;
    forall c: nat {:trigger ProcOk(s'.procs, s'.nextPid, init, c)} | c < NPROC
      ensures ProcOk(s'.procs, s'.nextPid, init, c)
    {
      StepProc(s, init, op, c);
    }
    forall q: nat {:trigger ActOk(s'.procs, s'.act, s'.holder, init, q)} | q < NPROC
      ensures ActOk(s'.procs, s'.act, s'.holder, init, q)
    {
      if q == op.p { StepOwnAct(s, init, op); } else { StepOtherAct(s, init, op, q); }
    }
    forall c: nat, q: nat {:trigger PairOk(s'.procs, s'.act, s'.holder, init, c, q)} | c < NPROC && q < NPROC
      ensures PairOk(s'.procs, s'.act, s'.holder, init, c, q)
    {
      StepKin(s, init, op, c, q);
      StepApart(s, init, op, c, q);
    }
  }

  lemma TableStep(s: State, init: nat, op: Op)
    requires Inv(s, init) && Enabled(s, init, op)
    ensures var s' := Step(s, init, op); TableOk(s'.procs, s'.act, s'.nextPid, s'.holder, init)
  {
    hide Inv, TableOk, PairOk, FirstZombie;
    At(s, init, op.p, op.p);
    match op
    case Wait(p, target) => WaitScanOk(s, init, p, target);
    case WaitAgain(p, gaveUp) =>
      if gaveUp { SetActOk(s, init, p, Calm); } else { WaitScanOk(s, init, p, s.act[p].target); }
    case _ => PlainStep(s, init, op);
  }

  // ----- exit statuses -----

  /** Slots keep their pids and nobody starts or stops being a zombie. */
  ghost predicate SameStatus(procs: seq<Proc>, procs': seq<Proc>) {
    |procs'| == |procs| && forall c {:trigger procs'[c]} {:trigger procs[c]} :: 0 <= c < |procs| ==>
      || (procs'[c].pid == procs[c].pid &&
        (procs'[c].status == procs[c].status || (procs[c].status.Used? && procs'[c].status.Alive?)))
      || (procs[c].status.Used? && procs'[c].status.Unused?)
  }

  lemma HistorySame(procs: seq<Proc>, procs': seq<Proc>, nextPid: nat, exited: map<nat, int>, reaped: seq<(nat, int)>)
    requires HistoryOk(procs, nextPid, exited, reaped) && SameStatus(procs, procs')
    ensures HistoryOk(procs', nextPid, exited, reaped)
  {
    forall pid {:trigger pid in exited} | pid in exited
      ensures pid < nextPid && (InZombie(procs', pid) || InReaped(reaped, pid))
    {
      if InZombie(procs, pid) {
        var c :| 0 <= c < |procs| && procs[c].status.Zombie? && procs[c].pid == pid;
        assert procs'[c].pid == pid;
      }
    }
  }

  lemma HistoryBorn(procs: seq<Proc>, nextPid: nat, exited: map<nat, int>, reaped: seq<(nat, int)>, child: nat)
    requires HistoryOk(procs, nextPid, exited, reaped) && child < |procs| && procs[child].status.Unused?
    ensures HistoryOk(procs[child := Proc(Used, nextPid, None, false)], nextPid + 1, exited, reaped)
  {
    var procs' := procs[child := Proc(Used, nextPid, None, false)];
    forall pid {:trigger pid in exited} | pid in exited
      ensures pid < nextPid + 1 && (InZombie(procs', pid) || InReaped(reaped, pid))
    {
      if InZombie(procs, pid) {
        var c :| 0 <= c < |procs| && procs[c].status.Zombie? && procs[c].pid == pid;
        assert procs'[c].pid == pid;
      }
    }
  }

  lemma HistoryExit(procs: seq<Proc>, nextPid: nat, exited: map<nat, int>, reaped: seq<(nat, int)>, p: nat, code: int)
    requires HistoryOk(procs, nextPid, exited, reaped) && p < |procs| && procs[p].status.Alive?
    requires procs[p].pid < nextPid
    requires forall c {:trigger procs[c]} ::
      0 <= c < |procs| && c != p && !procs[c].status.Unused? ==> procs[c].pid != procs[p].pid
    ensures HistoryOk(procs[p := procs[p].(status := Zombie(code))], nextPid, exited[procs[p].pid := code], reaped)
  {
    var procs', exited' := procs[p := procs[p].(status := Zombie(code))], exited[procs[p].pid := code];
    forall pid {:trigger pid in exited'} | pid in exited'
      ensures pid < nextPid && (InZombie(procs', pid) || InReaped(reaped, pid))
    {
      if pid == procs[p].pid {
        assert procs'[p].pid == pid;
      } else if InZombie(procs, pid) {
        var c :| 0 <= c < |procs| && procs[c].status.Zombie? && procs[c].pid == pid;
        assert procs'[c].pid == pid;
      }
    }
  }

  lemma HistoryReap(procs: seq<Proc>, nextPid: nat, exited: map<nat, int>, reaped: seq<(nat, int)>, z: nat)
    requires HistoryOk(procs, nextPid, exited, reaped) && z < |procs| && procs[z].status.Zombie?
    requires forall c {:trigger procs[c]} ::
      0 <= c < |procs| && c != z && !procs[c].status.Unused? ==> procs[c].pid != procs[z].pid
    ensures HistoryOk(procs[z := Free()], nextPid, exited, reaped + [(procs[z].pid, procs[z].status.code)])
  {
    var procs', reaped' := procs[z := Free()], reaped + [(procs[z].pid, procs[z].status.code)];
    forall pid {:trigger pid in exited} | pid in exited
      ensures pid < nextPid && (InZombie(procs', pid) || InReaped(reaped', pid))
    {
      if pid == procs[z].pid {
        assert reaped'[|reaped|].0 == pid;
      } else if InReaped(reaped, pid) {
        var i :| 0 <= i < |reaped| && reaped[i].0 == pid;
        assert reaped'[i].0 == pid;
      } else {
        var c :| 0 <= c < |procs| && procs[c].status.Zombie? && procs[c].pid == pid;
        assert procs'[c].pid == pid;
      }
    }
  }

  lemma PidsDiffer(s: State, init: nat, p: nat)
    requires Inv(s, init) && p < NPROC
    ensures forall c {:trigger s.procs[c]} ::
      0 <= c < |s.procs| && c != p && !s.procs[c].status.Unused? ==> s.procs[c].pid != s.procs[p].pid
  {
    hide HistoryOk;
    forall c: nat {:trigger s.procs[c]} | c < NPROC && c != p && !s.procs[c].status.Unused?
      ensures s.procs[c].pid != s.procs[p].pid
    {
      At(s, init, c, p);
    }
  }

  lemma HistoryStep(s: State, init: nat, op: Op)
    requires Inv(s, init) && Enabled(s, init, op)
    ensures var s' := Step(s, init, op); HistoryOk(s'.procs, s'.nextPid, s'.exited, s'.reaped)
  {
    var s' := Step(s, init, op);
    At(s, init, op.p, op.p);
    hide HistoryOk, TableOk, PairOk;
    match op
    case ForkAllocate(p, child) => HistoryBorn(s.procs, s.nextPid, s.exited, s.reaped, child);
    case BecomeZombie(p) =>
      PidsDiffer(s, init, p);
      HistoryExit(s.procs, s.nextPid, s.exited, s.reaped, p, s.act[p].code);
    case Wait(p, target) => WaitScanOk(s, init, p, target);
    case WaitAgain(p, gaveUp) => if !gaveUp { WaitScanOk(s, init, p, s.act[p].target); }
    case _ => HistorySame(s.procs, s'.procs, s.nextPid, s.exited, s.reaped);
  }

  // ----- whole runs -----

  lemma StepOk(s: State, init: nat, op: Op)
    requires Inv(s, init) && Enabled(s, init, op)
    ensures Inv(Step(s, init, op), init)
  {
    hide TableOk, HistoryOk, Step;
    TableStep(s, init, op);
    HistoryStep(s, init, op);
  }

  ghost predicate EnabledRun(s: State, init: nat, ops: seq<Op>)
    decreases |ops|
  {
    ops == [] || (init < NPROC && Enabled(s, init, ops[0]) && EnabledRun(Step(s, init, ops[0]), init, ops[1..]))
  }

  ghost function Run(s: State, init: nat, ops: seq<Op>): State
    requires EnabledRun(s, init, ops)
    decreases |ops|
  {
    if ops == [] then s else Run(Step(s, init, ops[0]), init, ops[1..])
  }

  /** Nothing that happened is forgotten or changed: exit statuses, answers of `wait`, pids handed out. */
  ghost predicate Remembers(s: State, t: State) {
    && s.nextPid <= t.nextPid && s.reaped <= t.reaped
    && forall pid {:trigger pid in s.exited} :: pid in s.exited ==> pid in t.exited && t.exited[pid] == s.exited[pid]
  }

  lemma StepRemembers(s: State, init: nat, op: Op)
    requires Inv(s, init) && Enabled(s, init, op)
    ensures Remembers(s, Step(s, init, op))
  {
    At(s, init, op.p, op.p);
    hide TableOk, PairOk, FirstZombie, Matches;
    assert op.BecomeZombie? ==> s.procs[op.p].pid !in s.exited;
  }

  lemma {:induction false} RunOk(s: State, init: nat, ops: seq<Op>)
    requires Inv(s, init) && EnabledRun(s, init, ops)
    ensures Inv(Run(s, init, ops), init) && Remembers(s, Run(s, init, ops))
    decreases |ops|
  {
    hide Inv, Step, Enabled;
    if ops != [] {
      StepOk(s, init, ops[0]);
      StepRemembers(s, init, ops[0]);
      RunOk(Step(s, init, ops[0]), init, ops[1..]);
    }
  }

  /** Only the first process runs, with pid 1 and no children. */
  ghost predicate Boot(s: State, init: nat) {
    && init < NPROC && |s.procs| == |s.act| == NPROC && s.nextPid == 2 && s.holder == None && s.exited == map[]
    && s.reaped == []
    && (forall c {:trigger s.procs[c]} ::
         0 <= c < NPROC ==>
           if c == init then s.procs[c] == Proc(Alive, 1, None, s.procs[c].killed) else s.procs[c] == Free())
    && (forall c {:trigger s.act[c]} :: 0 <= c < NPROC ==> s.act[c] == Calm)
  }

  lemma BootOk(s: State, init: nat)
    requires Boot(s, init)
    ensures Inv(s, init)
  {
    forall c: nat {:trigger ProcOk(s.procs, s.nextPid, init, c)} | c < NPROC
      ensures ProcOk(s.procs, s.nextPid, init, c)
    {
      assert s.procs[c] == s.procs[c];
    }
    forall p: nat {:trigger ActOk(s.procs, s.act, s.holder, init, p)} | p < NPROC
      ensures ActOk(s.procs, s.act, s.holder, init, p)
    {
      assert s.act[p] == Calm;
    }
    forall c: nat, p: nat {:trigger PairOk(s.procs, s.act, s.holder, init, c, p)} | c < NPROC && p < NPROC
      ensures PairOk(s.procs, s.act, s.holder, init, c, p)
    {
      assert s.act[p] == Calm && s.act[c] == Calm && s.procs[c] == s.procs[c] && s.procs[p] == s.procs[p];
    }
  }

  /** In every run a parent is alive and older than its child, and a process without parent is the first one or
      not started yet. */
  lemma ParentsAreAlive(s: State, init: nat, ops: seq<Op>, c: nat)
    requires Boot(s, init) && EnabledRun(s, init, ops) && c < NPROC
    ensures var t := Run(s, init, ops);
      && |t.procs| == NPROC
      && (t.procs[c].parent.Some? ==>
           var q := t.procs[c].parent.value; q < NPROC && t.procs[q].status == Alive && t.procs[q].pid < t.procs[c].pid)
      && (t.procs[c].parent.None? ==> t.procs[c].status.Unused? || t.procs[c].status.Used? || c == init)
  {
    BootOk(s, init);
    RunOk(s, init, ops);
    At(Run(s, init, ops), init, c, c);
  }

  /** Following parents from any started process ends at the first one. */
  ghost function Ancestor(s: State, init: nat, c: nat): nat
    requires Inv(s, init) && c < NPROC && (s.procs[c].status.Alive? || s.procs[c].status.Zombie?)
    decreases s.procs[c].pid
  {
    At(s, init, c, c);
    if s.procs[c].parent.None? then c else Ancestor(s, init, s.procs[c].parent.value)
  }

  lemma {:induction false} EveryoneDescendsFromInit(s: State, init: nat, c: nat)
    requires Inv(s, init) && c < NPROC && (s.procs[c].status.Alive? || s.procs[c].status.Zombie?)
    ensures Ancestor(s, init, c) == init
    decreases s.procs[c].pid
  {
    hide HistoryOk;
    At(s, init, c, c);
    if s.procs[c].parent.Some? { EveryoneDescendsFromInit(s, init, s.procs[c].parent.value); }
  }

  /** In every run each exit status is the code the process passed to `exit`, and was handed out by exactly one `wait`,
      unchanged, or is still with its zombie. */
  lemma StatusReturnedOnce(s: State, init: nat, ops: seq<Op>, pid: nat)
    requires Boot(s, init) && EnabledRun(s, init, ops) && pid in Run(s, init, ops).exited
    ensures var t := Run(s, init, ops);
      && (forall i, j {:trigger t.reaped[i], t.reaped[j]} ::
           0 <= i < |t.reaped| && 0 <= j < |t.reaped| && t.reaped[i].0 == t.reaped[j].0 == pid ==> i == j)
      && (forall i {:trigger t.reaped[i]} :: 0 <= i < |t.reaped| && t.reaped[i].0 == pid ==>
           t.reaped[i].1 == t.exited[pid])
      && (InReaped(t.reaped, pid) <==> !InZombie(t.procs, pid))
      && Codes(s, init, ops, pid) == [t.exited[pid]]
  {
    hide Run, Codes, EnabledRun, TableOk;
    BootOk(s, init);
    RunOk(s, init, ops);
    StatusIsExitCode(s, init, ops, pid);
  }

  // ----- exit codes, read off the operations -----

  /** The codes the process with that pid has passed to `exit` in the course of `ops`. */
  ghost function Codes(s: State, init: nat, ops: seq<Op>, pid: nat): seq<int>
    requires EnabledRun(s, init, ops)
    decreases |ops|
  {
    if ops == [] then []
    else
      (if ops[0].ExitStart? && s.procs[ops[0].p].pid == pid then [ops[0].code] else [])
      + Codes(Step(s, init, ops[0]), init, ops[1..], pid)
  }

  /** What the state knows of them: the status recorded, or the one the process in `exit` carries. */
  ghost function Kept(s: State, pid: nat): seq<int>
    requires |s.procs| == |s.act| == NPROC
  {
    if pid in s.exited then [s.exited[pid]]
    else
      match s.holder
      case Some(p) => if p < NPROC && HoldsWaitLock(s.act[p]) && s.procs[p].pid == pid then [s.act[p].code] else []
      case None => []
  }

  /** The holder of the wait lock keeps it, its pid and its code until it has become a zombie. */
  lemma HolderKeepsCode(s: State, init: nat, op: Op)
    requires Inv(s, init) && Enabled(s, init, op) && !op.ExitStart? && !op.BecomeZombie?
    ensures var s' := Step(s, init, op);
      && s'.holder == s.holder && s'.exited == s.exited && |s'.procs| == |s'.act| == NPROC
      && (s.holder.Some? ==> var p := s.holder.value;
           p < NPROC && HoldsWaitLock(s.act[p]) && HoldsWaitLock(s'.act[p]) &&
           s'.act[p].code == s.act[p].code && s'.procs[p].pid == s.procs[p].pid)
  {
    hide Inv, PairOk, FirstZombie, Matches, HasChild;
    At(s, init, op.p, op.p);
    if s.holder.Some? { At(s, init, op.p, s.holder.value); At(s, init, s.holder.value, op.p); }
  }

  lemma RunningNotExited(s: State, init: nat, p: nat)
    requires Inv(s, init) && p < NPROC && s.procs[p].status.Alive?
    ensures s.procs[p].pid !in s.exited
  {
    hide ProcOk, ActOk, PairOk;
    assert !s.procs[p].status.Unused?;
  }

  lemma StepKeepsCode(s: State, init: nat, op: Op, pid: nat)
    requires Inv(s, init) && Enabled(s, init, op)
    ensures |Step(s, init, op).procs| == |Step(s, init, op).act| == NPROC
    ensures Kept(Step(s, init, op), pid) ==
      Kept(s, pid) + if op.ExitStart? && s.procs[op.p].pid == pid then [op.code] else []
  {
    hide Inv, PairOk;
    At(s, init, op.p, op.p);
    if op.ExitStart? || op.BecomeZombie? {
      RunningNotExited(s, init, op.p);
    } else {
      HolderKeepsCode(s, init, op);
      hide Step;
    }
  }

  lemma Sized(s: State, init: nat)
    requires Inv(s, init)
    ensures |s.procs| == |s.act| == NPROC
  {
  }

  lemma {:induction false} RunKeepsCodes(s: State, init: nat, ops: seq<Op>, pid: nat)
    requires Inv(s, init) && EnabledRun(s, init, ops)
    ensures |s.procs| == |s.act| == NPROC && |Run(s, init, ops).procs| == |Run(s, init, ops).act| == NPROC
    ensures Kept(Run(s, init, ops), pid) == Kept(s, pid) + Codes(s, init, ops, pid)
    decreases |ops|
  {
    hide Inv, Step, Enabled, Kept;
    Sized(s, init);
    if ops != [] {
      StepOk(s, init, ops[0]);
      StepKeepsCode(s, init, ops[0], pid);
      RunKeepsCodes(Step(s, init, ops[0]), init, ops[1..], pid);
    }
  }

  /** In every run each process exits at most once, the status recorded for it is the code it passed to `exit`, and so
      is the answer of the `wait` that reaps it. */
  lemma StatusIsExitCode(s: State, init: nat, ops: seq<Op>, pid: nat)
    requires Boot(s, init) && EnabledRun(s, init, ops)
    ensures var t := Run(s, init, ops);
      && |Codes(s, init, ops, pid)| <= 1
      && (pid in t.exited ==> Codes(s, init, ops, pid) == [t.exited[pid]])
      && forall i {:trigger t.reaped[i]} :: 0 <= i < |t.reaped| && t.reaped[i].0 == pid ==>
           Codes(s, init, ops, pid) == [t.reaped[i].1]
  {
    BootOk(s, init);
    RunOk(s, init, ops);
    RunKeepsCodes(s, init, ops, pid);
    hide TableOk, Run, Codes;
  }

  // ----- who is whose child, read off the operations -----

  /** For each pid handed out in the course of `ops`, the pid of the process that forked it. */
  ghost function Forkers(s: State, init: nat, ops: seq<Op>, f: map<nat, nat>): map<nat, nat>
    requires EnabledRun(s, init, ops)
    decreases |ops|
  {
    if ops == [] then f else Forkers(Step(s, init, ops[0]), init, ops[1..], ForkedBy(s, ops[0], f))
  }

  ghost function ForkedBy(s: State, op: Op, f: map<nat, nat>): map<nat, nat>
    requires op.p < |s.procs|
  {
    if op.ForkAllocate? then f[s.nextPid := s.procs[op.p].pid] else f
  }

  /** Slot `c` has the one who forked it as parent, or init once that one has called `exit`. */
  ghost predicate Lineage(s: State, init: nat, f: map<nat, nat>, c: nat)
    requires |s.procs| == |s.act| == NPROC && c < NPROC
  {
    var v, a := s.procs[c], s.act[c];
    && (!v.status.Unused? && c != init ==> v.pid in f)
    && (v.parent.Some? && v.parent.value < NPROC ==>
         v.pid in f && (s.procs[v.parent.value].pid == f[v.pid] || (v.parent.value == init && Kept(s, f[v.pid]) != [])))
    && (Forks(a) && a.child < NPROC ==> s.procs[a.child].pid in f && f[s.procs[a.child].pid] == v.pid)
  }

  ghost predicate Lineages(s: State, init: nat, f: map<nat, nat>) {
    && |s.procs| == |s.act| == NPROC
    && (forall c: nat {:trigger Lineage(s, init, f, c)} :: c < NPROC ==> Lineage(s, init, f, c))
    && forall pid {:trigger pid in f} :: pid in f ==> pid < s.nextPid
  }

  /** A step keeps the pid of every slot in use but the one it reaps or gives up, and a running process stays. */
  lemma StepPids(s: State, init: nat, op: Op, c: nat)
    requires Inv(s, init) && Enabled(s, init, op) && c < NPROC
    ensures var s' := Step(s, init, op); var v, v' := s.procs[c], s'.procs[c];
      && |s'.procs| == |s'.act| == NPROC
      && (v'.status.Unused? || v'.pid == v.pid || (op.ForkAllocate? && c == op.child && v'.pid == s.nextPid))
      && (v.status.Alive? ==> v'.pid == v.pid)
      && (!v'.status.Unused? && v.status.Unused? ==> op.ForkAllocate? && c == op.child && v'.pid == s.nextPid)
      && s.nextPid <= s'.nextPid && (op.ForkAllocate? ==> s'.nextPid == s.nextPid + 1 && op.p != op.child)
  {
    hide Inv, PairOk, FirstZombie, Matches, HasChild;
    At(s, init, c, op.p);
    At(s, init, op.p, c);
  }

  /** It gives a parent only to the child of a fork and, to a child of an exiting process, init. */
  lemma StepParents(s: State, init: nat, op: Op, c: nat)
    requires Inv(s, init) && Enabled(s, init, op) && c < NPROC
    ensures var s' := Step(s, init, op); var v, v' := s.procs[c], s'.procs[c];
      && |s'.procs| == |s'.act| == NPROC
      && (v'.parent.Some? ==>
           && v'.pid == v.pid && v'.parent.value < NPROC && s.procs[v'.parent.value].status.Alive?
           && (|| v'.parent == v.parent
               || (op.ForkLink? && c == s.act[op.p].child && v'.parent == Some(op.p))
               || (op.Reparent? && v.parent == Some(op.p) && v'.parent == Some(init))))
  {
    hide Inv, PairOk, FirstZombie, Matches, HasChild;
    At(s, init, c, op.p);
    At(s, init, init, op.p);
  }

  lemma StepForks(s: State, init: nat, op: Op, c: nat)
    requires Inv(s, init) && Enabled(s, init, op) && c < NPROC
    ensures var s' := Step(s, init, op);
      && |s'.procs| == |s'.act| == NPROC
      && (Forks(s'.act[c]) ==>
           && s'.act[c].child < NPROC && s'.procs[c].pid == s.procs[c].pid
           && (if op.ForkAllocate? && c == op.p
               then s'.act[c].child == op.child && s'.procs[op.child].pid == s.nextPid
               else Forks(s.act[c]) && s'.act[c].child == s.act[c].child && s.procs[s.act[c].child].status.Used?))
  {
    hide Inv, PairOk, FirstZombie, Matches, HasChild;
    At(s, init, op.p, op.p);
    At(s, init, c, c);
  }

  lemma ChildKept(s: State, init: nat, op: Op, c: nat)
    requires Inv(s, init) && Enabled(s, init, op) && c < NPROC && Forks(s.act[c]) && Forks(Step(s, init, op).act[c])
    ensures |Step(s, init, op).procs| == NPROC && s.act[c].child < NPROC
    ensures Step(s, init, op).procs[s.act[c].child].pid == s.procs[s.act[c].child].pid
  {
    hide Inv, FirstZombie, Matches, HasChild, Kin;
    At(s, init, op.p, c);
    At(s, init, c, op.p);
  }

  lemma LineageStep(s: State, init: nat, f: map<nat, nat>, op: Op, c: nat)
    requires Inv(s, init) && Enabled(s, init, op) && Lineages(s, init, f) && c < NPROC
    ensures |Step(s, init, op).procs| == |Step(s, init, op).act| == NPROC
    ensures Lineage(Step(s, init, op), init, ForkedBy(s, op, f), c)
  {
    hide Inv, Step, PairOk, Kept, ProcOk, ActOk;
    At(s, init, c, op.p);
    var s' := Step(s, init, op);
    StepPids(s, init, op, c);
    StepParents(s, init, op, c);
    StepForks(s, init, op, c);
    assert Lineage(s, init, f, c) && Lineage(s, init, f, op.p);
    var v' := s'.procs[c];
    if v'.parent.Some? {
      StepPids(s, init, op, v'.parent.value);
      if s.procs[c].pid in f { StepKeepsCode(s, init, op, f[s.procs[c].pid]); }
      if op.Reparent? { ExitingKnown(s, init, op.p); }
    }
    if Forks(s'.act[c]) && Forks(s.act[c]) {
      ChildKept(s, init, op, c);
    }
  }

  lemma ExitingKnown(s: State, init: nat, p: nat)
    requires Inv(s, init) && p < NPROC && HoldsWaitLock(s.act[p])
    ensures |s.procs| == |s.act| == NPROC && Kept(s, s.procs[p].pid) != []
  {
    hide PairOk, HistoryOk;
    At(s, init, p, p);
  }

  lemma {:induction false} LineageRun(s: State, init: nat, ops: seq<Op>, f: map<nat, nat>)
    requires Inv(s, init) && EnabledRun(s, init, ops) && Lineages(s, init, f)
    ensures Lineages(Run(s, init, ops), init, Forkers(s, init, ops, f))
    decreases |ops|
  {
    hide Inv, Step, Lineage;
    if ops != [] {
      var s', f' := Step(s, init, ops[0]), ForkedBy(s, ops[0], f);
      StepOk(s, init, ops[0]);
      StepPids(s, init, ops[0], 0);
      forall c: nat {:trigger Lineage(s', init, f', c)} | c < NPROC
        ensures Lineage(s', init, f', c)
      {
        LineageStep(s, init, f, ops[0], c);
      }
      LineageRun(s', init, ops[1..], f');
    }
  }

  /** In every run the parent of a process is the one that forked it, unless that one has called `exit`; then it may be
      init, and is when the exit is complete. */
  lemma ParentsAreForkers(s: State, init: nat, ops: seq<Op>, c: nat)
    requires Boot(s, init) && EnabledRun(s, init, ops) && c < NPROC
    ensures var t, f := Run(s, init, ops), Forkers(s, init, ops, map[]);
      && |t.procs| == NPROC
      && (t.procs[c].parent.Some? ==>
           && t.procs[c].parent.value < NPROC && t.procs[c].pid in f
           && var q, forker := t.procs[c].parent.value, f[t.procs[c].pid];
              && (Codes(s, init, ops, forker) == [] ==> t.procs[q].pid == forker)
              && (t.procs[q].pid != forker ==> q == init) && (forker in t.exited ==> q == init))
  {
    hide Run, EnabledRun, Codes, Forkers, Inv, PairOk;
    BootOk(s, init);
    RunOk(s, init, ops);
    var t, f := Run(s, init, ops), Forkers(s, init, ops, map[]);
    BootLineage(s, init);
    LineageRun(s, init, ops, map[]);
    At(t, init, c, c);
    assert Lineage(t, init, f, c);
    if t.procs[c].parent.Some? {
      var forker := f[t.procs[c].pid];
      RunKeepsCodes(s, init, ops, forker);
      assert Kept(s, forker) == [];
      RunningNotExited(t, init, t.procs[c].parent.value);
    }
  }

  lemma BootLineage(s: State, init: nat)
    requires Boot(s, init)
    ensures Lineages(s, init, map[])
  {
    forall c: nat {:trigger Lineage(s, init, map[], c)} | c < NPROC
      ensures Lineage(s, init, map[], c)
    {
      assert s.procs[c] == s.procs[c] && s.act[c] == Calm;
    }
  }

  /** In every run, a process that sleeps in `wait`, or is about to, with a child it could reap is init, and whoever
      holds the wait lock is notifying it and has not passed it yet. */
  lemma NoSleepWithZombie(s: State, init: nat, ops: seq<Op>, p: nat, c: nat)
    requires Boot(s, init) && EnabledRun(s, init, ops) && p < NPROC && c < NPROC
    ensures var t := Run(s, init, ops);
      && |t.procs| == |t.act| == NPROC
      && (Sleepy(t.act[p]) && Matches(t.procs[c], p, t.act[p].target) && t.procs[c].status.Zombie? ==>
            Coming(t.act, t.holder, init, p))
  {
    BootOk(s, init);
    RunOk(s, init, ops);
    At(Run(s, init, ops), init, c, p);
  }

  // ----- what the calls do -----

  /** A pass of `wait`: it reaps the first zombie child it was asked for and returns its pid and status; without one it
      goes to sleep if there is a child to wait for and nobody has killed it, and fails otherwise. */
  lemma WaitAnswers(s: State, init: nat, op: Op, target: Target)
    requires Inv(s, init) && Enabled(s, init, op)
    requires op == Wait(op.p, target) || (op == WaitAgain(op.p, false) && s.act[op.p] == Woken(target))
    ensures var p, s' := op.p, Step(s, init, op);
      var zombies := set c: nat | c < NPROC && s.procs[c].parent == Some(p) && s.procs[c].status.Zombie? &&
                                  (target == AnyProcess || s.procs[c].pid == target.pid);
      && (forall z {:trigger z in zombies} :: z in zombies && (forall c :: c in zombies ==> z <= c) ==>
           s' == s.(procs := s.procs[z := Proc(Unused, 0, None, false)], act := s.act[p := Calm],
                    reaped := s.reaped + [(s.procs[z].pid, s.procs[z].status.code)]))
      && (zombies == {} ==>
           var children := set c: nat | c < NPROC && s.procs[c].parent == Some(p) &&
                                        (target == AnyProcess || s.procs[c].pid == target.pid);
           s' == s.(act := s.act[p := if children != {} && !s.procs[p].killed then Dozing(target) else Calm]))
  {
    hide Inv, PairOk, ProcOk, ActOk, FirstZombie;
    var p := op.p;
    var zombies := set c: nat | c < NPROC && s.procs[c].parent == Some(p) && s.procs[c].status.Zombie? &&
                                (target == AnyProcess || s.procs[c].pid == target.pid);
    var r := FirstZombie(s.procs, p, target);
    if r.Some? {
      assert r.value in zombies;
      forall c: nat | c < r.value
        ensures c !in zombies
      {
        assert !(Matches(s.procs[c], p, target) && s.procs[c].status.Zombie?);
      }
    } else {
      forall c: nat | c < NPROC
        ensures c !in zombies
      {
        assert !(Matches(s.procs[c], p, target) && s.procs[c].status.Zombie?);
      }
      var children := set c: nat | c < NPROC && s.procs[c].parent == Some(p) &&
                                   (target == AnyProcess || s.procs[c].pid == target.pid);
      if HasChild(s.procs, p, target) {
        var c :| 0 <= c < |s.procs| && Matches(s.procs[c], p, target);
        assert c in children;
      } else {
        forall c: nat | c < NPROC ensures c !in children { assert !Matches(s.procs[c], p, target); }
      }
    }
  }

  /** A fork without interference: the child runs, with a fresh pid and the caller as parent, and nothing else changes;
      given up halfway it leaves nothing but a pid not used again. */
  lemma ForkMakesChild(s: State, init: nat, p: nat, child: nat)
    requires Inv(s, init) && Enabled(s, init, ForkAllocate(p, child)) && s.holder.None?
    ensures EnabledRun(s, init, [ForkAllocate(p, child), ForkLink(p), ForkStart(p)])
    ensures Run(s, init, [ForkAllocate(p, child), ForkLink(p), ForkStart(p)]) ==
      s.(procs := s.procs[child := Proc(Alive, s.nextPid, Some(p), false)], nextPid := s.nextPid + 1)
    ensures EnabledRun(s, init, [ForkAllocate(p, child), ForkAbort(p)])
    ensures Run(s, init, [ForkAllocate(p, child), ForkAbort(p)]) ==
      s.(procs := s.procs[child := Proc(Unused, 0, None, false)], nextPid := s.nextPid + 1)
  {
    hide Inv;
    At(s, init, child, p);
    var s1 := Step(s, init, ForkAllocate(p, child));
    var s2 := Step(s1, init, ForkLink(p));
    var s3 := Step(s2, init, ForkStart(p));
    assert s3 == s.(procs := s.procs[child := Proc(Alive, s.nextPid, Some(p), false)], nextPid := s.nextPid + 1);
    var t2 := Step(s1, init, ForkAbort(p));
    assert t2 == s.(procs := s.procs[child := Proc(Unused, 0, None, false)], nextPid := s.nextPid + 1);
    hide Step, Enabled;
    Two(s, init, ForkAllocate(p, child), s1, ForkAbort(p), t2);
    Three(s, init, ForkAllocate(p, child), s1, ForkLink(p), s2, ForkStart(p), s3);
  }

  lemma Two(s: State, init: nat, a: Op, s1: State, b: Op, s2: State)
    requires init < NPROC && Enabled(s, init, a) && Step(s, init, a) == s1
    requires Enabled(s1, init, b) && Step(s1, init, b) == s2
    ensures EnabledRun(s, init, [a, b]) && Run(s, init, [a, b]) == s2
  {
    hide Step, Enabled;
    assert [a, b][1..] == [b] && [b][1..] == [];
    assert EnabledRun(s1, init, [b]) && Run(s1, init, [b]) == s2;
  }

  lemma Three(s: State, init: nat, a: Op, s1: State, b: Op, s2: State, c: Op, s3: State)
    requires init < NPROC && Enabled(s, init, a) && Step(s, init, a) == s1
    requires Enabled(s1, init, b) && Step(s1, init, b) == s2 && Enabled(s2, init, c) && Step(s2, init, c) == s3
    ensures EnabledRun(s, init, [a, b, c]) && Run(s, init, [a, b, c]) == s3
  {
    hide Step, Enabled;
    Two(s1, init, b, s2, c, s3);
    assert [a, b, c][1..] == [b, c];
  }

  /** The steps a process in `exit` has still to take at most. */
  function ExitLeft(a: Act): nat {
    match a
    case Exiting(i, _) => if i <= NPROC then (NPROC - i) * (NPROC + 2) + NPROC + 3 else 0
    case Rousing(i, j, _) => if i < NPROC && j <= NPROC then (NPROC - i - 1) * (NPROC + 2) + 2 * NPROC + 4 - j else 0
    case Telling(j, _) => if j <= NPROC then NPROC - j + 2 else 0
    case Notified(_) => 1
    case _ => 0
  }

  /** `exit` ends: every step of a process in it brings it nearer to being a zombie with the status it was given, the
      wait lock free. */
  lemma ExitAdvances(s: State, init: nat, op: Op)
    requires Inv(s, init) && Enabled(s, init, op) && HoldsWaitLock(s.act[op.p]) && !op.Kill?
    ensures var p, s' := op.p, Step(s, init, op);
      && |s'.act| == |s'.procs| == NPROC && ExitLeft(s'.act[p]) < ExitLeft(s.act[p])
      && (if HoldsWaitLock(s'.act[p]) then s'.act[p].code == s.act[p].code && s'.holder == s.holder
          else s' == s.(procs := s.procs[p := s.procs[p].(status := Zombie(s.act[p].code))], act := s.act[p := Calm],
                        holder := None, exited := s.exited[s.procs[p].pid := s.act[p].code]))
  {
    hide Inv, PairOk;
    At(s, init, op.p, op.p);
  }

  /** And there is a step to take, unless a process on its way to sleep has to take one first. */
  lemma ExitNotStuck(s: State, init: nat, p: nat)
    requires Inv(s, init) && p < NPROC && HoldsWaitLock(s.act[p])
    ensures
      || (exists op: Op {:trigger Enabled(s, init, op)} :: Enabled(s, init, op) && op.p == p && !op.Kill?)
      || ((s.act[p].Rousing? || s.act[p].Telling?) && s.act[p].j < NPROC && Enabled(s, init, FallAsleep(s.act[p].j)))
  {
    hide Inv, PairOk;
    Sized(s, init);
    At(s, init, p, p);
    match s.act[p]
    case Exiting(i, _) => assert Enabled(s, init, if i < NPROC then Reparent(p) else TellStart(p));
    case Rousing(_, j, _) =>
      assert Enabled(s, init, if j < NPROC then Rouse(p) else RouseDone(p)) || Enabled(s, init, FallAsleep(j));
    case Telling(j, _) =>
      assert Enabled(s, init, if j < NPROC then Tell(p) else TellDone(p)) || Enabled(s, init, FallAsleep(j));
    case Notified(_) => assert Enabled(s, init, BecomeZombie(p));
    case _ =>
  }

  /** A kill marks the process and wakes it if it sleeps in `wait`; it can then leave, with the lock free. */
  lemma KillWakes(s: State, init: nat, p: nat)
    requires Inv(s, init) && Enabled(s, init, Kill(p))
    ensures init < NPROC
    ensures var s' := Step(s, init, Kill(p));
      && s' == s.(procs := s.procs[p := s.procs[p].(killed := true)], act := s'.act) && |s'.act| == NPROC
      && (forall q {:trigger s'.act[q]} :: 0 <= q < NPROC && q != p ==> s'.act[q] == s.act[q])
      && s'.act[p] == (if s.act[p].Asleep? then Woken(s.act[p].target) else s.act[p])
      && (s.act[p].Asleep? && s.holder.None? ==>
           && EnabledRun(s, init, [Kill(p), WaitAgain(p, true)])
           && Run(s, init, [Kill(p), WaitAgain(p, true)]) == s'.(act := s'.act[p := Calm]))
  {
    hide Inv, PairOk;
    At(s, init, p, p);
    var s' := Step(s, init, Kill(p));
    if s.act[p].Asleep? && s.holder.None? {
      var t := Step(s', init, WaitAgain(p, true));
      Two(s, init, Kill(p), s', WaitAgain(p, true), t);
    }
  }

  /** A notifier is never stuck: whoever keeps it from looking at a process holds only the lock of its own process and
      can go to sleep. */
  lemma NotifierNotStuck(s: State, init: nat, p: nat)
    requires Inv(s, init) && p < NPROC && (s.act[p].Rousing? || s.act[p].Telling?)
    requires !Enabled(s, init, Rouse(p)) && !Enabled(s, init, RouseDone(p)) && !Enabled(s, init, Tell(p))
    requires !Enabled(s, init, TellDone(p))
    ensures s.act[p].j < NPROC && Enabled(s, init, FallAsleep(s.act[p].j))
    ensures !Step(s, init, FallAsleep(s.act[p].j)).act[s.act[p].j].Dozing?
  {
    At(s, init, p, p);
  }

  /** A process becomes a zombie with no children left, and its parent is awake or will look again. */
  lemma ExitLeavesNoOrphan(s: State, init: nat, p: nat, c: nat)
    requires Inv(s, init) && Enabled(s, init, BecomeZombie(p)) && c < NPROC
    ensures s.procs[c].parent != Some(p)
    ensures s.procs[p].parent.Some? && s.procs[p].parent.value < NPROC && !Sleepy(s.act[s.procs[p].parent.value])
  {
    At(s, init, c, p);
    At(s, init, p, p);
  }

  /** A new process gets a pid that no process has or ever ended with. */
  lemma PidIsFresh(s: State, init: nat, p: nat, child: nat, c: nat)
    requires Inv(s, init) && Enabled(s, init, ForkAllocate(p, child)) && c < NPROC
    ensures var pid := Step(s, init, ForkAllocate(p, child)).procs[child].pid;
      pid != s.procs[c].pid && pid !in s.exited && !InReaped(s.reaped, pid)
  {
    At(s, init, c, p);
  }

  // ----- the loops over the table -----

  /** The scan of `wait`: stops at a child it can reap, or at the one child it was asked for. */
  method ScanChildren(procs: seq<Proc>, p: nat, target: Target) returns (zombie: Option<nat>, found: bool)
    requires forall c, d {:trigger procs[c], procs[d]} ::
      0 <= c < d < |procs| && procs[c].parent.Some? && procs[d].parent.Some? ==> procs[c].pid != procs[d].pid
    ensures zombie == FirstZombie(procs, p, target)
    ensures zombie.None? ==> (found <==> HasChild(procs, p, target))
  {
    hide FirstZombie;
    zombie, found := None, false;
    var c := 0;
    while c < |procs|
      invariant 0 <= c <= |procs|
      invariant found ==> HasChild(procs, p, target)
      invariant !found ==> forall d {:trigger procs[d]} :: 0 <= d < c ==> !Matches(procs[d], p, target)
      invariant forall d {:trigger procs[d]} ::
        0 <= d < c ==> !(Matches(procs[d], p, target) && procs[d].status.Zombie?)
      invariant target.Process? ==> !found
    {
      if Matches(procs[c], p, target) {
        found := true;
        if procs[c].status.Zombie? { return Some(c), true; }
        if target.Process? { return; }
      }
      c := c + 1;
    }
  }

  /** `lock_unused_proc`: `seen[c]` is slot `c` as it is under its lock when the scan comes to it. The lock of the slot
      found is still held, that of the others is not. */
  method FindUnused(seen: seq<Proc>) returns (r: Option<nat>)
    ensures r.Some? ==>
      r.value < |seen| && seen[r.value].status.Unused? && forall c {:trigger seen[c]} :: 0 <= c < r.value ==>
        !seen[c].status.Unused?
    ensures r.None? ==> forall c {:trigger seen[c]} :: 0 <= c < |seen| ==> !seen[c].status.Unused?
  {
    var c := 0;
    while c < |seen|
      invariant 0 <= c <= |seen| && forall d {:trigger seen[d]} :: 0 <= d < c ==> !seen[d].status.Unused?
    {
      if seen[c].status.Unused? { return Some(c); }
      c := c + 1;
    }
    r := None;
  }
}
