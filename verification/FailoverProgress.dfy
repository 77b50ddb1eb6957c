/** Progress of the wake-up protocol.  Every step other than a new registration, a
    foreign byte in the pipe or the start of a sleep uses up a measure of the
    work outstanding, and when no such step is left the queue is empty.  So no
    scheduling of the processes leaves an accepted request behind. */
module FailoverProgress {
  import opened RequestRing
  import opened FailoverProtocol
  import opened FailoverCoverage

  // ----- the work outstanding -----

  // How far a process is from the end of its registration.
  function Stage(e: Enqueuer): nat {
    match e
    case Away => 0
    case FlagRaised => 1
    case Unlocked(_) => 2
    case SawSwitching(_) => 3
    case Written => 4
    case Bumped(_) => 5
    case Locked(_) => 6
    case Checked(_) => 7
  }

  function Stages(procs: seq<Enqueuer>): nat {
    if procs == [] then 0 else Stage(procs[0]) + Stages(procs[1..])
  }

  lemma {:induction false} StagesUpdate(procs: seq<Enqueuer>, p: nat, e: Enqueuer)
    requires p < |procs|
    ensures Stages(procs[p := e]) == Stages(procs) - Stage(procs[p]) + Stage(e)
  {
    if p == 0 {
      assert procs[p := e][1..] == procs[1..];
    } else {
      assert procs[p := e][1..] == procs[1..][p - 1 := e];
      StagesUpdate(procs[1..], p - 1, e);
    }
  }

  function OuterRank(o: Outer): nat {
    match o
    case Paused => 0
    case Top => 1
    case Finishing => 2
    case InProcessor => 3
    case Woken => 4
    case Cleared => 8        // the failover routine is still to be called
  }

  function DrainRank(d: Drain): nat {
    match d
    case NotDraining => 0
    case Broke => 1
    case Holding => 2
    case LoopTop => 3
    case SharedSet => 4
    case Processing => 4
    case Entered => 5
  }

  function InnerRank(i: Inner): nat {
    match i
    case NoSleep => 0
    case Sleeping => 1
    case InnerFinishing => 2
    case InnerCleared => 3
    case InnerProcessor => 4
    case InnerWoken => 5
  }

  function MainWork(m: Main): nat {
    7 * m.pipe + OuterRank(m.outer) + DrainRank(m.drain) + InnerRank(m.inner)
  }

  function SignalWork(flag: bool, osPending: bool): nat {
    (if flag then 6 else 0) + (if osPending then 8 else 0)
  }

  ghost function Work(s: State): int {
    10 * Stages(s.procs) + 3 * (s.ring.tail - s.ring.head) + SignalWork(s.flag, s.osPending) + MainWork(s.main)
  }

  lemma {:induction false} WorkIsNat(s: State)
    requires Control(s)
    ensures 0 <= Work(s)
  {
  }

  // ----- every step but three kinds uses it up -----

  // What a step may add: a registration that starts, a byte from another
  // handler, a sleep inside the failover routine.
  function Adds(t: Step): nat {
    match t
    case Check(_, _) => 71
    case OtherByte => 8
    case EnterSleep => 2
    case _ => 0
  }

  predicate Fresh(t: Step) {
    t.Check? || t.OtherByte? || t.EnterSleep?
  }

  lemma {:induction false} OuterWorks(m: Main, flag: bool)
    requires OuterEnabled(m) && !m.local && !m.initializing
    ensures var (m', flag') := OuterNext(m, flag); MainWork(m') + SignalWork(flag', false) < MainWork(m) + SignalWork(flag, false)
  {
  }

  lemma {:induction false} InnerWorks(m: Main, flag: bool)
    requires InnerEnabled(m) && m.local && !m.initializing
    ensures var (m', flag') := InnerNext(m, flag); MainWork(m') + SignalWork(flag', false) < MainWork(m) + SignalWork(flag, false)
  {
  }

  lemma {:induction false} MainWorks(s: State, t: Step)
    requires Control(s) && Enabled(s, t) && !s.main.initializing
    requires t.Deliver? || t.OtherByte? || t.OuterStep? || t.EnterSleep? || t.InnerStep? || t.LeaveSleep?
    ensures Work(Apply(s, t)) < Work(s) + Adds(t)
  {
    if t.OuterStep? { OuterWorks(s.main, s.flag); }
    if t.InnerStep? { InnerWorks(s.main, s.flag); }
  }

  lemma {:induction false} DrainRankDrops(m: Main, shared: bool, empty: bool)
    requires !m.drain.NotDraining?
    ensures var m' := DrainNext(m, shared, empty).0;
            if m.drain.Holding? && !empty then MainWork(m') == MainWork(m) + 2 else MainWork(m') < MainWork(m)
  {
  }

  lemma {:induction false} DrainWorks(s: State)
    requires Enabled(s, DrainStep)
    ensures Work(Apply(s, DrainStep)) < Work(s)
  {
    var empty := s.ring.tail == s.ring.head;
    DrainRankDrops(s.main, s.shared, empty);
    var s' := DrainEffect(s);
    assert s'.procs == s.procs && s'.flag == s.flag && s'.osPending == s.osPending;
    assert s'.main == DrainNext(s.main, s.shared, empty).0;
    assert s'.ring.tail == s.ring.tail;
    assert s'.ring.head == if s.main.drain.Holding? && !empty then s.ring.head + 1 else s.ring.head;
  }

  lemma {:induction false} CheckWorks(s: State, p: nat, req: Request)
    requires Enabled(s, Check(p, req))
    ensures Work(Apply(s, Check(p, req))) <= Work(s) + 70
  {
    StagesUpdate(s.procs, p, Checked(req));
  }

  lemma {:induction false} BumpWorks(s: State, p: nat)
    requires Enabled(s, TestOrBump(p))
    ensures Work(Apply(s, TestOrBump(p))) < Work(s)
  {
    StagesUpdate(s.procs, p, Away);
    StagesUpdate(s.procs, p, Bumped(s.procs[p].req));
  }

  lemma {:induction false} HoldWorks(s: State, t: Step)
    requires Enabled(s, t) && (t.Lock? || t.Write? || t.ReadSwitching? || t.Unlock? || t.Kill?)
    ensures Work(Apply(s, t)) < Work(s)
  {
    StagesUpdate(s.procs, t.p, Apply(s, t).procs[t.p]);
  }

  lemma {:induction false} LeaveWorks(s: State, p: nat)
    requires Enabled(s, Leave(p))
    ensures Work(Apply(s, Leave(p))) < Work(s)
  {
    StagesUpdate(s.procs, p, Away);
    StagesUpdate(s.procs, p, FlagRaised);
  }

  lemma {:induction false} StepWorks(s: State, t: Step)
    requires Control(s) && Enabled(s, t) && !s.main.initializing
    ensures Work(Apply(s, t)) < Work(s) + Adds(t)
  {
    match t
    case Check(p, req) => CheckWorks(s, p, req);
    case Lock(_) => HoldWorks(s, t);
    case TestOrBump(p) => BumpWorks(s, p);
    case Write(_) => HoldWorks(s, t);
    case ReadSwitching(_) => HoldWorks(s, t);
    case Unlock(_) => HoldWorks(s, t);
    case Leave(p) => LeaveWorks(s, p);
    case Kill(_) => HoldWorks(s, t);
    case DrainStep => DrainWorks(s);
    case InitTimeout => assert false;
    case FinishInit => assert false;
    case _ => MainWorks(s, t);
  }

  // The most that the new events of a run add.
  function Added(ts: seq<Step>): nat {
    if ts == [] then 0 else Adds(ts[0]) + Added(ts[1..])
  }

  // Over every run, whoever is scheduled: the number of steps is bounded by the
  // work outstanding at the start and what new events add.
  lemma {:induction false} RunIsBounded(s: State, ts: seq<Step>)
    requires Control(s) && !s.main.initializing && IsRun(s, ts)
    ensures |ts| + Work(Final(s, ts)) <= Work(s) + Added(ts) && 0 <= Work(Final(s, ts))
    decreases |ts|
  {
    if ts != [] {
      StepWorks(s, ts[0]);
      StepControl(s, ts[0]);
      StepStarted(s, ts[0]);
      RunIsBounded(Apply(s, ts[0]), ts[1..]);
    } else {
      WorkIsNat(s);
    }
  }

  // ----- when nothing is left to do -----

  // The next step of a process inside its registration.
  function ProcStep(e: Enqueuer, p: nat): Step
    requires !e.Away?
  {
    match e
    case Checked(_) => Lock(p)
    case Locked(_) => TestOrBump(p)
    case Bumped(_) => Write(p)
    case Written => ReadSwitching(p)
    case SawSwitching(_) => Unlock(p)
    case Unlocked(_) => Leave(p)
    case FlagRaised => Kill(p)
  }

  // The next step of the main process outside a registration.
  function MainStep(m: Main): Step {
    if m.drain.NotDraining? then (if m.outer.Paused? && m.pipe == 0 then Deliver else OuterStep)
    else if m.inner.NoSleep? then DrainStep
    else if m.inner.Sleeping? then LeaveSleep
    else InnerStep
  }

  ghost predicate Resting(s: State) {
    && (forall p | 0 <= p < |s.procs| :: s.procs[p].Away?)
    && s.main.drain.NotDraining? && s.main.outer.Paused? && s.main.pipe == 0 && !s.osPending
  }

  // Unless everything rests, some process can go on with what it has begun.
  lemma {:induction false} RestsOrMoves(s: State) returns (t: Step)
    requires Control(s) && !Resting(s)
    ensures Enabled(s, t) && !Fresh(t)
  {
    if s.lock > 0 || (s.lock == 0 && !s.main.drain.Holding?) {
      t := ProcStep(s.procs[s.lock], s.lock);
    } else if p: nat :| p < |s.procs| && !s.procs[p].Away? && s.lock == -1 {
      t := ProcStep(s.procs[p], p);
    } else {
      assert s.procs[0].Away?;
      t := MainStep(s.main);
    }
  }

  lemma {:induction false} RestingIsEmpty(s: State)
    requires Control(s) && Covered(s) && Resting(s)
    ensures s.accepted == s.dequeued
  {
  }

  ghost predicate NothingLeft(s: State) {
    forall t :: Enabled(s, t) ==> Fresh(t)
  }

  // A run that has come to a point where only new events could go on has
  // dequeued every request accepted, in order.
  lemma {:induction false} DrainedWhenIdle(s: State, ts: seq<Step>)
    requires Control(s) && Covered(s) && !s.main.initializing && IsRun(s, ts) && NothingLeft(Final(s, ts))
    ensures Final(s, ts).dequeued == Final(s, ts).accepted && s.accepted <= Final(s, ts).dequeued
  {
    var f := Final(s, ts);
    RunControl(s, ts);
    NoLostRequest(s, ts);
    RunHistory(s, ts);
    if !Resting(f) {
      var t := RestsOrMoves(f);
      assert false;
    }
    RestingIsEmpty(f);
  }

  lemma {:induction false} StepHistory(s: State, t: Step)
    requires Enabled(s, t)
    ensures s.accepted <= Apply(s, t).accepted && s.dequeued <= Apply(s, t).dequeued
  {
  }

  // Histories only grow.
  lemma {:induction false} RunHistory(s: State, ts: seq<Step>)
    requires IsRun(s, ts)
    ensures s.accepted <= Final(s, ts).accepted && s.dequeued <= Final(s, ts).dequeued
    decreases |ts|
  {
    if ts != [] {
      StepHistory(s, ts[0]);
      RunHistory(Apply(s, ts[0]), ts[1..]);
    }
  }

  ghost predicate NoneFresh(ts: seq<Step>) {
    forall i | 0 <= i < |ts| :: !Fresh(ts[i])
  }

  lemma {:induction false} NothingAdded(ts: seq<Step>)
    requires NoneFresh(ts)
    ensures Added(ts) == 0
  {
    if ts != [] {
      NothingAdded(ts[1..]);
    }
  }

  // Once no new event comes, no scheduling goes on for longer than the work
  // outstanding at its start, and where it cannot go on everything is dequeued.
  lemma {:induction false} EveryScheduleDrains(s: State, ts: seq<Step>)
    requires Control(s) && Covered(s) && !s.main.initializing && IsRun(s, ts) && NoneFresh(ts)
    ensures |ts| <= Work(s)
    ensures NothingLeft(Final(s, ts)) ==> Final(s, ts).dequeued == Final(s, ts).accepted && s.accepted <= Final(s, ts).dequeued
  {
    NothingAdded(ts);
    RunIsBounded(s, ts);
    if NothingLeft(Final(s, ts)) {
      DrainedWhenIdle(s, ts);
    }
  }

  lemma {:induction false} NextStep(s: State, ts: seq<Step>) returns (next: seq<Step>)
    requires Control(s) && IsRun(s, ts) && NoneFresh(ts) && !Resting(Final(s, ts))
    ensures IsRun(s, next) && NoneFresh(next) && ts <= next && |next| == |ts| + 1
  {
    RunControl(s, ts);
    var t := RestsOrMoves(Final(s, ts));
    RunSnoc(s, ts, t);
    next := ts + [t];
  }

  // And every such run can be finished that way.
  lemma {:induction false} PendingIsDequeued(s: State, ts: seq<Step>) returns (all: seq<Step>)
    requires Control(s) && Covered(s) && !s.main.initializing && IsRun(s, ts) && NoneFresh(ts)
    ensures IsRun(s, all) && NoneFresh(all) && ts <= all
    ensures Final(s, all).dequeued == Final(s, all).accepted && s.accepted <= Final(s, all).dequeued
    decreases Work(s) - |ts|
  {
    EveryScheduleDrains(s, ts);
    if Resting(Final(s, ts)) {
      all := ts;
      RunControl(s, ts);
      NoLostRequest(s, ts);
      RestingIsEmpty(Final(s, ts));
      RunHistory(s, ts);
    } else {
      var next := NextStep(s, ts);
      EveryScheduleDrains(s, next);
      all := PendingIsDequeued(s, next);
    }
  }
}
