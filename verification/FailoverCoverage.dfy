/** No request is lost: while one is pending, the failover routine is at work, or a
    registering process is still to signal, or the failover reason is set and the
    main process is going to look.  One step, possible only during start-up, can
    break this. */
module FailoverCoverage {
  import opened RequestRing
  import opened FailoverProtocol

  // A registering process that will still act on its own account.
  predicate Promises(e: Enqueuer) {
    e.Written? || e == SawSwitching(false) || e == Unlocked(false)
  }

  ghost predicate SomePromise(procs: seq<Enqueuer>) {
    exists p | 0 <= p < |procs| :: Promises(procs[p])
  }

  ghost predicate SomeRaised(procs: seq<Enqueuer>) {
    exists p | 0 <= p < |procs| :: procs[p].FlagRaised?
  }

  // The main process is going to test the failover reason.
  ghost predicate WillLook(s: State) {
    || SomeRaised(s.procs)
    || s.osPending
    || s.main.outer.InProcessor?
    || (s.main.usr1 && (s.main.outer.Top? || s.main.outer.Paused? || s.main.outer.Woken?))
  }

  ghost predicate Covered(s: State) {
    || s.accepted == s.dequeued
    || Active(s.main.drain) || s.main.drain.Entered? || s.main.outer.Cleared?
    || SomePromise(s.procs)
    || (s.flag && WillLook(s))
  }

  // The one step that abandons pending requests: the processor clears the
  // failover reason while the main process is still starting up, and neither a
  // registering process nor a running drain is going to make up for it.
  ghost predicate Abandons(s: State, t: Step) {
    && t.OuterStep? && s.main.initializing && s.main.drain.NotDraining? && s.main.outer.InProcessor?
    && s.flag && s.accepted != s.dequeued && !SomePromise(s.procs)
  }

  lemma {:induction false} CoveredByMain(s: State, t: Step)
    requires Control(s) && Covered(s) && Enabled(s, t)
    requires t.Deliver? || t.OtherByte? || t.OuterStep? || t.InitTimeout? || t.FinishInit? || t.EnterSleep? || t.InnerStep? || t.LeaveSleep?
    ensures Covered(Apply(s, t)) <==> !Abandons(s, t)
  {
  }

  lemma {:induction false} CoveredByDrain(s: State)
    requires Control(s) && Covered(s) && Enabled(s, DrainStep)
    ensures Covered(Apply(s, DrainStep))
  {
  }

  // Moving process p from one promise-free place to another leaves the promises of others.
  lemma {:induction false} OthersKept(procs: seq<Enqueuer>, p: nat, e: Enqueuer)
    requires p < |procs|
    ensures SomePromise(procs) && (Promises(procs[p]) ==> Promises(e)) ==> SomePromise(procs[p := e])
    ensures SomeRaised(procs) && !procs[p].FlagRaised? ==> SomeRaised(procs[p := e])
  {
    if q :| 0 <= q < |procs| && Promises(procs[q]) && (Promises(procs[p]) ==> Promises(e)) {
      assert Promises(procs[p := e][q]);
    }
    if q :| 0 <= q < |procs| && procs[q].FlagRaised? && !procs[p].FlagRaised? {
      assert procs[p := e][q].FlagRaised?;
    }
  }

  lemma {:induction false} CoveredByEnter(s: State, t: Step)
    requires Control(s) && Covered(s) && Enabled(s, t)
    requires t.Check? || t.Lock? || t.TestOrBump? || t.Write?
    ensures Covered(Apply(s, t))
  {
    var s' := Apply(s, t);
    OthersKept(s.procs, t.p, s'.procs[t.p]);
    if t.Write? {
      assert Promises(s'.procs[t.p]);
    }
  }

  lemma {:induction false} CoveredByLeave(s: State, t: Step)
    requires Control(s) && Covered(s) && Enabled(s, t)
    requires t.ReadSwitching? || t.Unlock? || t.Leave? || t.Kill?
    ensures Covered(Apply(s, t))
  {
    var s' := Apply(s, t);
    OthersKept(s.procs, t.p, s'.procs[t.p]);
    if t.ReadSwitching? && !s.shared {
      assert Promises(s'.procs[t.p]);
    }
    if t.Leave? && s.procs[t.p] == Unlocked(false) && t.p != 0 {
      assert s'.procs[t.p].FlagRaised?;
    }
  }

  // Every step but that one keeps pending requests covered, and that one never does.
  lemma {:induction false} StepCoveredIff(s: State, t: Step)
    requires Control(s) && Covered(s) && Enabled(s, t)
    ensures Covered(Apply(s, t)) <==> !Abandons(s, t)
  {
    match t
    case Check(_, _) => CoveredByEnter(s, t);
    case Lock(_) => CoveredByEnter(s, t);
    case TestOrBump(_) => CoveredByEnter(s, t);
    case Write(_) => CoveredByEnter(s, t);
    case ReadSwitching(_) => CoveredByLeave(s, t);
    case Unlock(_) => CoveredByLeave(s, t);
    case Leave(_) => CoveredByLeave(s, t);
    case Kill(_) => CoveredByLeave(s, t);
    case DrainStep => CoveredByDrain(s);
    case _ => CoveredByMain(s, t);
  }

  // ----- over whole runs -----

  // Along the whole run pending requests are covered.
  ghost predicate CoveredThroughout(s: State, ts: seq<Step>)
    requires IsRun(s, ts)
    decreases |ts|
  {
    Covered(s) && (ts != [] ==> CoveredThroughout(Apply(s, ts[0]), ts[1..]))
  }

  // The run contains a step that abandons pending requests.
  ghost predicate AbandonsIn(s: State, ts: seq<Step>)
    requires IsRun(s, ts)
    decreases |ts|
  {
    ts != [] && (Abandons(s, ts[0]) || AbandonsIn(Apply(s, ts[0]), ts[1..]))
  }

  lemma {:induction false} RunCoveredIff(s: State, ts: seq<Step>)
    requires Control(s) && Covered(s) && IsRun(s, ts)
    ensures CoveredThroughout(s, ts) <==> !AbandonsIn(s, ts)
    decreases |ts|
  {
    if ts != [] {
      StepControl(s, ts[0]);
      StepCoveredIff(s, ts[0]);
      if Covered(Apply(s, ts[0])) {
        RunCoveredIff(Apply(s, ts[0]), ts[1..]);
      }
    }
  }

  // From start-up on, in every interleaving: requests stay covered throughout if
  // and only if the processor never clears the failover reason of a pending
  // request while the main process is still initializing.
  lemma {:induction false} NoLostRequestIff(s: State, ts: seq<Step>)
    requires Initial(s) && IsRun(s, ts)
    ensures CoveredThroughout(s, ts) <==> !AbandonsIn(s, ts)
  {
    InitialControl(s);
    RunCoveredIff(s, ts);
  }

  lemma {:induction false} StepStarted(s: State, t: Step)
    requires Enabled(s, t) && !s.main.initializing
    ensures !Apply(s, t).main.initializing
  {
  }

  lemma {:induction false} StartedStays(s: State, ts: seq<Step>)
    requires IsRun(s, ts) && !s.main.initializing
    ensures !AbandonsIn(s, ts) && !Final(s, ts).main.initializing
    decreases |ts|
  {
    if ts != [] {
      StepStarted(s, ts[0]);
      StartedStays(Apply(s, ts[0]), ts[1..]);
    }
  }

  lemma {:induction false} CoveredAtEnd(s: State, ts: seq<Step>)
    requires IsRun(s, ts) && CoveredThroughout(s, ts)
    ensures Covered(Final(s, ts))
    decreases |ts|
  {
    if ts != [] {
      CoveredAtEnd(Apply(s, ts[0]), ts[1..]);
    }
  }

  // Hence nothing is lost once initialization is over with nothing abandoned.
  lemma {:induction false} NoLostRequest(s: State, ts: seq<Step>)
    requires Control(s) && Covered(s) && !s.main.initializing && IsRun(s, ts)
    ensures CoveredThroughout(s, ts) && Covered(Final(s, ts))
  {
    StartedStays(s, ts);
    RunCoveredIff(s, ts);
    CoveredAtEnd(s, ts);
  }

  lemma {:induction false} InitialControl(s: State)
    requires Initial(s)
    ensures Control(s) && Covered(s)
  {
  }

  // The queue is empty when the failover routine leaves its loop, so any later
  // state is again free of forgotten requests, whatever was left over before.
  lemma {:induction false} LoopEndCovers(s: State)
    requires Control(s) && Enabled(s, DrainStep) && s.main.drain.Holding?
    requires Apply(s, DrainStep).main.drain.Broke?
    ensures var s' := Apply(s, DrainStep); s'.accepted == s'.dequeued && Covered(s')
  {
  }

  lemma {:induction false} RunSnoc(s: State, ts: seq<Step>, t: Step)
    requires IsRun(s, ts) && Enabled(Final(s, ts), t)
    ensures IsRun(s, ts + [t]) && Final(s, ts + [t]) == Apply(Final(s, ts), t)
    decreases |ts|
  {
    assert (ts + [t])[..] == ts + [t];
    if ts == [] {
      assert ([] + [t])[1..] == [];
    } else {
      assert (ts + [t])[1..] == ts[1..] + [t];
      RunSnoc(Apply(s, ts[0]), ts[1..], t);
    }
  }

  // Registration by process 1 alone, up to the sent signal, from a quiet state.
  ghost function Signalled(s: State, req: Request): State
    requires |s.ring.slots| == MAX_REQUEST_QUEUE_SIZE
  {
    s.(ring := Ring(s.ring.head, 0, s.ring.slots[0 := req]), accepted := [req], flag := true, osPending := true)
  }

  lemma {:induction false} RegistersInStartup(s: State, req: Request) returns (ts: seq<Step>)
    requires Initial(s) && |s.procs| == 2
    ensures IsRun(s, ts) && Final(s, ts) == s.(ring := Ring(-1, 0, s.ring.slots), lock := 1, procs := [Away, Bumped(req)])
  {
    assert s.procs == [Away, Away];
    ts := Extend(s, [], Check(1, req));
    assert Final(s, ts) == s.(procs := [Away, Checked(req)]);
    ts := Extend(s, ts, Lock(1));
    assert Final(s, ts) == s.(lock := 1, procs := [Away, Locked(req)]);
    ts := Extend(s, ts, TestOrBump(1));
  }

  lemma {:induction false} WritesInStartup(s: State, req: Request) returns (ts: seq<Step>)
    requires Initial(s) && |s.procs| == 2
    ensures IsRun(s, ts) && Final(s, ts) == Signalled(s, req).(flag := false, osPending := false, procs := [Away, Unlocked(false)])
  {
    ts := RegistersInStartup(s, req);
    var w := Signalled(s, req).(flag := false, osPending := false);
    ts := Extend(s, ts, Write(1));
    assert Final(s, ts) == w.(lock := 1, procs := [Away, Written]);
    ts := Extend(s, ts, ReadSwitching(1));
    assert Final(s, ts) == w.(lock := 1, procs := [Away, SawSwitching(false)]);
    ts := Extend(s, ts, Unlock(1));
  }

  lemma {:induction false} SignalsInStartup(s: State, req: Request) returns (ts: seq<Step>)
    requires Initial(s) && |s.procs| == 2
    ensures IsRun(s, ts) && Final(s, ts) == Signalled(s, req)
  {
    ts := WritesInStartup(s, req);
    ts := Extend(s, ts, Leave(1));
    assert Final(s, ts) == Signalled(s, req).(osPending := false, procs := [Away, FlagRaised]);
    ts := Extend(s, ts, Kill(1));
    assert s.procs == [Away, Away];
  }

  lemma {:induction false} WakesInStartup(s: State, req: Request) returns (ts: seq<Step>)
    requires Initial(s) && |s.procs| == 2
    ensures IsRun(s, ts)
    ensures Final(s, ts) == Signalled(s, req).(osPending := false, main := Main(Woken, NotDraining, NoSleep, false, true, 0, true))
  {
    ts := SignalsInStartup(s, req);
    ts := Extend(s, ts, OuterStep);
    assert Final(s, ts) == Signalled(s, req).(main := Main(Paused, NotDraining, NoSleep, false, false, 0, true));
    ts := Extend(s, ts, Deliver);
    ts := Extend(s, ts, OuterStep);
  }

  // A request registered and signalled while the main process is still starting
  // up is accepted, its signal is consumed and ignored, and startup ends with
  // the request in the queue and nobody going to look at it.
  lemma {:induction false} StrandedDuringStartup(s: State, req: Request) returns (ts: seq<Step>)
    requires Initial(s) && |s.procs| == 2
    ensures IsRun(s, ts) && !Final(s, ts).main.initializing
    ensures Final(s, ts).accepted == [req] && Final(s, ts).dequeued == [] && !Covered(Final(s, ts))
    ensures AbandonsIn(s, ts)
  {
    ts := WakesInStartup(s, req);
    var w := Signalled(s, req).(osPending := false);
    ts := Extend(s, ts, OuterStep);
    assert Final(s, ts) == w.(main := Main(InProcessor, NotDraining, NoSleep, false, true, 0, true));
    ts := Extend(s, ts, OuterStep);
    ts := Extend(s, ts, OuterStep);
    assert Final(s, ts) == w.(flag := false, main := Main(Top, NotDraining, NoSleep, false, false, 0, true));
    ts := Extend(s, ts, FinishInit);
    NotCovered(Final(s, ts));
    NoLostRequestIff(s, ts);
    if CoveredThroughout(s, ts) {
      CoveredAtEnd(s, ts);
    }
  }

  lemma NotCovered(s: State)
    requires s.accepted != s.dequeued && !s.flag && (forall p | 0 <= p < |s.procs| :: s.procs[p].Away?)
    requires s.main.drain.NotDraining? && s.main.outer.Paused?
    ensures !Covered(s)
  {
  }

  lemma {:induction false} Extend(s: State, ts: seq<Step>, t: Step) returns (ts': seq<Step>)
    requires IsRun(s, ts) && Enabled(Final(s, ts), t)
    ensures IsRun(s, ts') && Final(s, ts') == Apply(Final(s, ts), t)
  {
    RunSnoc(s, ts, t);
    ts' := ts + [t];
  }
}
