/** The wake-up protocol between the processes that register node requests and
    the main process that drains them, as interleaved atomic steps.

    Process 0 is the main process; it may register requests itself, and then
    calls the failover routine directly instead of signalling.  The main process
    is a main loop (`outer`), the failover routine it may be inside of (`drain`),
    and the request check that a sleep within that routine may run (`inner`).
    SIGUSR1 is delivered only while the main process has signals unblocked. */
module FailoverProtocol {
  import opened RequestRing

  // Where a process stands inside register_node_operation_request.
  datatype Enqueuer =
    | Away
    | Checked(req: Request)         // the unlocked test saw room
    | Locked(req: Request)          // semaphore taken
    | Bumped(req: Request)          // tail counter advanced, slot not yet written
    | Written                       // slot written
    | SawSwitching(saw: bool)       // shared switching flag read, semaphore still held
    | Unlocked(saw: bool)           // semaphore released
    | FlagRaised                    // signal reason stored, SIGUSR1 not yet sent

  datatype Outer =
    | Top          // loop body, signals blocked
    | Paused       // select on the pipe, signals unblocked
    | Woken        // pipe byte read, about to test sigusr1_request
    | InProcessor  // inside the interrupt processor, failover reason not yet tested
    | Cleared      // failover reason cleared, failover routine about to be called
    | Finishing    // processor returned, sigusr1_request about to be reset

  datatype Drain =
    | NotDraining
    | Entered      // failover routine called and not refused, nothing set yet
    | SharedSet    // shared switching set, local not yet
    | LoopTop      // about to take the semaphore
    | Holding      // semaphore held, emptiness not yet tested
    | Processing   // working on a dequeued request
    | Broke        // loop left, flags about to be cleared a second time

  datatype Inner = NoSleep | Sleeping | InnerWoken | InnerProcessor | InnerCleared | InnerFinishing

  // The main process.
  datatype Main = Main(
    outer: Outer,
    drain: Drain,
    inner: Inner,
    local: bool,             // its own switching flag
    usr1: bool,              // sigusr1_request
    pipe: nat,               // bytes in the self-pipe
    initializing: bool
  )

  datatype State = State(
    ring: Ring,
    lock: int,               // process holding the semaphore, -1 when free
    shared: bool,            // the switching flag in shared memory
    flag: bool,              // the failover signal reason in shared memory
    osPending: bool,         // SIGUSR1 sent and not yet delivered
    main: Main,
    procs: seq<Enqueuer>,
    accepted: seq<Request>,  // history: requests written into the ring
    dequeued: seq<Request>   // history: requests copied out by the main process
  )

  datatype Step =
    | Check(p: nat, req: Request)
    | Lock(p: nat)
    | TestOrBump(p: nat)
    | Write(p: nat)
    | ReadSwitching(p: nat)
    | Unlock(p: nat)
    | Leave(p: nat)          // return, call failover, or store the signal reason
    | Kill(p: nat)
    | Deliver                // SIGUSR1 handler runs
    | OtherByte              // another handler writes to the pipe
    | OuterStep
    | InitTimeout            // a sleep during startup ends without an event
    | FinishInit
    | DrainStep
    | EnterSleep
    | InnerStep
    | LeaveSleep

  // ----- the main process on its own -----

  // Points from which the main process may itself register a request: the loop
  // body, and the quarantine work of the processor before the failover reason.
  predicate MayRegister(m: Main) {
    if m.drain.NotDraining? then m.outer.Top? || m.outer.InProcessor? else m.inner.InnerProcessor?
  }

  predicate Unblocked(m: Main) {
    if m.drain.NotDraining? then m.outer.Paused? else m.inner.Sleeping?
  }

  // The routine returns at once when the main process is already switching.
  function CallFailover(m: Main): (r: Main)
    ensures r.initializing == m.initializing
  {
    if m.local then m else m.(drain := Entered)
  }

  predicate OuterEnabled(m: Main) {
    m.drain.NotDraining? && (m.outer.Paused? ==> m.pipe > 0)
  }

  // The main loop; the second component is the failover reason afterwards.
  function OuterNext(m: Main, flag: bool): (r: (Main, bool))
    requires OuterEnabled(m)
    ensures r.0.initializing == m.initializing
  {
    match m.outer
    case Top => (m.(outer := Paused), flag)
    case Paused => (m.(outer := Woken, pipe := m.pipe - 1), flag)
    case Woken => (m.(outer := if m.usr1 then InProcessor else Top), flag)
    case InProcessor => (m.(outer := if flag && !m.initializing then Cleared else Finishing), false)
    case Cleared => (CallFailover(m.(outer := Finishing)), flag)
    case Finishing => (m.(usr1 := false, outer := Top), flag)
  }

  predicate InnerEnabled(m: Main) {
    m.drain.Processing? && !m.inner.NoSleep? && (m.inner.Sleeping? ==> m.pipe > 0)
  }

  // The same check run from a sleep inside the failover routine.
  function InnerNext(m: Main, flag: bool): (r: (Main, bool))
    requires InnerEnabled(m)
    ensures r.0.initializing == m.initializing
  {
    match m.inner
    case NoSleep => (m, flag)
    case Sleeping => (m.(inner := InnerWoken, pipe := m.pipe - 1), flag)
    case InnerWoken => (m.(inner := if m.usr1 then InnerProcessor else Sleeping), flag)
    case InnerProcessor => (m.(inner := if flag && !m.initializing then InnerCleared else InnerFinishing), false)
    case InnerCleared => (CallFailover(m.(inner := InnerFinishing)), flag)
    case InnerFinishing => (m.(usr1 := false, inner := Sleeping), flag)
  }

  // The failover routine; the second component is the shared switching flag afterwards.
  function DrainNext(m: Main, shared: bool, empty: bool): (r: (Main, bool))
    ensures r.0.initializing == m.initializing
  {
    match m.drain
    case NotDraining => (m, shared)
    case Entered => (m.(drain := SharedSet), true)
    case SharedSet => (m.(local := true, drain := LoopTop), shared)
    case LoopTop => (m.(drain := Holding), shared)
    case Holding => if empty then (m.(local := false, drain := Broke), false) else (m.(drain := Processing), shared)
    case Processing => (m.(drain := LoopTop), shared)
    case Broke => (m.(local := false, drain := NotDraining), false)
  }

  // ----- the whole system -----

  ghost predicate Enabled(s: State, t: Step) {
    && 0 < |s.procs| && |s.ring.slots| == MAX_REQUEST_QUEUE_SIZE && -1 <= s.ring.head <= s.ring.tail
    && match t
       case Check(p, _) => p < |s.procs| && s.procs[p].Away? && (p == 0 ==> MayRegister(s.main))
       case Lock(p) => p < |s.procs| && s.procs[p].Checked? && s.lock == -1
       case TestOrBump(p) => p < |s.procs| && s.procs[p].Locked?
       case Write(p) => p < |s.procs| && s.procs[p].Bumped?
       case ReadSwitching(p) => p < |s.procs| && s.procs[p].Written?
       case Unlock(p) => p < |s.procs| && s.procs[p].SawSwitching?
       case Leave(p) => p < |s.procs| && s.procs[p].Unlocked?
       case Kill(p) => p < |s.procs| && s.procs[p].FlagRaised?
       case Deliver => s.procs[0].Away? && s.osPending && Unblocked(s.main)
       case OtherByte => s.procs[0].Away? && Unblocked(s.main)
       case OuterStep => s.procs[0].Away? && OuterEnabled(s.main)
       case InitTimeout =>
         s.procs[0].Away? && s.main.drain.NotDraining? && s.main.outer.Paused? && s.main.initializing
       case FinishInit => s.procs[0].Away? && s.main.drain.NotDraining? && s.main.outer.Top? && s.main.initializing
       case DrainStep =>
         && s.procs[0].Away? && !s.main.drain.NotDraining? && s.main.inner.NoSleep?
         && (s.main.drain.LoopTop? ==> s.lock == -1)
       case EnterSleep => s.procs[0].Away? && s.main.drain.Processing? && s.main.inner.NoSleep?
       case InnerStep => s.procs[0].Away? && InnerEnabled(s.main)
       case LeaveSleep => s.procs[0].Away? && s.main.drain.Processing? && s.main.inner.Sleeping?
  }

  function At(s: State, p: nat, e: Enqueuer): State
    requires p < |s.procs|
  {
    s.(procs := s.procs[p := e])
  }

  // A registered request that found no failover in progress: the main process
  // calls the failover routine, any other stores the reason for its signal.
  function LeaveRegistration(s: State, p: nat): State
    requires p < |s.procs| && s.procs[p].Unlocked?
  {
    if s.procs[p].saw then At(s, p, Away)
    else if p != 0 then At(s.(flag := true), p, FlagRaised)
    else At(s.(main := CallFailover(s.main)), p, Away)
  }

  // What the failover routine does to the semaphore and the ring.
  function DrainEffect(s: State): State
    requires |s.ring.slots| == MAX_REQUEST_QUEUE_SIZE && -1 <= s.ring.head <= s.ring.tail
  {
    var empty := s.ring.tail == s.ring.head;
    var (m, shared) := DrainNext(s.main, s.shared, empty);
    var s' := s.(main := m, shared := shared);
    if s.main.drain.LoopTop? then s'.(lock := 0)
    else if !s.main.drain.Holding? then s'
    else if empty then s'.(lock := -1)
    else
      var head := s.ring.head + 1;
      s'.(lock := -1, ring := s.ring.(head := head),
          dequeued := s.dequeued + [s.ring.slots[head % MAX_REQUEST_QUEUE_SIZE]])
  }

  ghost function Apply(s: State, t: Step): State
    requires Enabled(s, t)
  {
    match t
    case Check(p, req) => if s.ring.Full() then s else At(s, p, Checked(req))
    case Lock(p) => At(s.(lock := p), p, Locked(s.procs[p].req))
    case TestOrBump(p) =>
      if s.ring.Full() then At(s.(lock := -1), p, Away)
      else At(s.(ring := s.ring.(tail := s.ring.tail + 1)), p, Bumped(s.procs[p].req))
    case Write(p) =>
      var req := s.procs[p].req;
      At(s.(ring := s.ring.(slots := s.ring.slots[s.ring.tail % MAX_REQUEST_QUEUE_SIZE := req]),
            accepted := s.accepted + [req]), p, Written)
    case ReadSwitching(p) => At(s, p, SawSwitching(s.shared))
    case Unlock(p) => At(s.(lock := -1), p, Unlocked(s.procs[p].saw))
    case Leave(p) => LeaveRegistration(s, p)
    case Kill(p) => At(s.(osPending := true), p, Away)
    case Deliver => s.(osPending := false, main := s.main.(usr1 := true, pipe := s.main.pipe + 1))
    case OtherByte => s.(main := s.main.(pipe := s.main.pipe + 1))
    case OuterStep => var (m, flag) := OuterNext(s.main, s.flag); s.(main := m, flag := flag)
    case InitTimeout => s.(main := s.main.(outer := Woken))
    case FinishInit => s.(main := s.main.(initializing := false, outer := Paused))
    case DrainStep => DrainEffect(s)
    case EnterSleep => s.(main := s.main.(inner := Sleeping))
    case InnerStep => var (m, flag) := InnerNext(s.main, s.flag); s.(main := m, flag := flag)
    case LeaveSleep => s.(main := s.main.(inner := NoSleep))
  }

  ghost predicate Initial(s: State) {
    && 0 < |s.procs| && (forall p | 0 <= p < |s.procs| :: s.procs[p].Away?)
    && |s.ring.slots| == MAX_REQUEST_QUEUE_SIZE && s.ring.head == s.ring.tail == -1
    && s.lock == -1 && !s.shared && !s.flag && !s.osPending
    && s.main == Main(Top, NotDraining, NoSleep, false, false, 0, true)
    && s.accepted == [] && s.dequeued == []
  }

  ghost predicate IsRun(s: State, ts: seq<Step>)
    decreases |ts|
  {
    ts == [] || (Enabled(s, ts[0]) && IsRun(Apply(s, ts[0]), ts[1..]))
  }

  ghost function Final(s: State, ts: seq<Step>): State
    requires IsRun(s, ts)
    decreases |ts|
  {
    if ts == [] then s else Final(Apply(s, ts[0]), ts[1..])
  }

  // ----- what every step keeps: control -----

  predicate HoldsLock(e: Enqueuer) {
    e.Locked? || e.Bumped? || e.Written? || e.SawSwitching?
  }

  // True while the failover routine is committed to another look at the queue.
  predicate Active(d: Drain) {
    d.SharedSet? || d.LoopTop? || d.Holding? || d.Processing?
  }

  ghost predicate MainInv(m: Main, shared: bool, self: Enqueuer) {
    && (shared <==> Active(m.drain))
    && (m.local <==> m.drain.LoopTop? || m.drain.Holding? || m.drain.Processing?)
    && !self.FlagRaised?
    && (self.Away? || (MayRegister(m) && (m.drain.NotDraining? || m.drain.Processing?)))
    && (m.inner.NoSleep? || m.drain.Processing?)
    && (m.drain.NotDraining? || m.outer.Top? || m.outer.InProcessor? || m.outer.Finishing?)
    // a request to be processed after a pause always has its byte in the pipe
    && (m.usr1 && (m.outer.Top? || m.outer.Paused?) && (m.inner.NoSleep? || m.inner.Sleeping?) ==> m.pipe > 0)
  }

  ghost predicate LockInv(lock: int, procs: seq<Enqueuer>, holding: bool) {
    && 0 < |procs|
    && -1 <= lock < |procs|
    && (forall p | 0 < p < |procs| :: HoldsLock(procs[p]) <==> lock == p)
    && (lock == 0 <==> HoldsLock(procs[0]) || holding)
    && !(HoldsLock(procs[0]) && holding)
  }

  // The ring holds exactly the accepted requests not yet dequeued, in order; a
  // process that advanced the tail owns one further slot.
  ghost predicate RingInv(r: Ring, inFlight: nat, accepted: seq<Request>, dequeued: seq<Request>) {
    && |r.slots| == MAX_REQUEST_QUEUE_SIZE
    && -1 <= r.head <= r.tail - inFlight && r.tail <= r.head + MAX_REQUEST_QUEUE_SIZE
    && accepted == dequeued + r.Window(r.head, r.tail - inFlight)
  }

  ghost function InFlight(lock: int, procs: seq<Enqueuer>): nat {
    if 0 <= lock < |procs| && procs[lock].Bumped? then 1 else 0
  }

  ghost predicate Control(s: State) {
    && LockInv(s.lock, s.procs, s.main.drain.Holding?)
    && MainInv(s.main, s.shared, s.procs[0])
    && RingInv(s.ring, InFlight(s.lock, s.procs), s.accepted, s.dequeued)
  }

  lemma {:induction false} OuterMain(m: Main, shared: bool, flag: bool)
    requires MainInv(m, shared, Away) && OuterEnabled(m)
    ensures MainInv(OuterNext(m, flag).0, shared, Away)
    ensures m.drain.NotDraining? && !OuterNext(m, flag).0.drain.Holding?
  {
  }

  lemma {:induction false} InnerMain(m: Main, shared: bool, flag: bool)
    requires MainInv(m, shared, Away) && InnerEnabled(m)
    ensures MainInv(InnerNext(m, flag).0, shared, Away)
    ensures InnerNext(m, flag).0.drain == m.drain
  {
  }

  lemma {:induction false} DrainMain(m: Main, shared: bool, empty: bool)
    requires MainInv(m, shared, Away) && m.inner.NoSleep?
    ensures var (m', shared') := DrainNext(m, shared, empty); MainInv(m', shared', Away)
  {
  }

  lemma {:induction false} RegisterMain(m: Main, shared: bool, self: Enqueuer)
    requires MainInv(m, shared, self) && self.Unlocked?
    ensures MainInv(CallFailover(m), shared, Away) && CallFailover(m).drain.Holding? == m.drain.Holding?
  {
  }

  lemma {:induction false} StepControlMain(s: State, t: Step)
    requires Control(s) && Enabled(s, t)
    requires t.Deliver? || t.OtherByte? || t.OuterStep? || t.InitTimeout? || t.FinishInit? || t.EnterSleep? || t.InnerStep? || t.LeaveSleep?
    ensures Control(Apply(s, t))
  {
    if t.OuterStep? { OuterMain(s.main, s.shared, s.flag); }
    if t.InnerStep? { InnerMain(s.main, s.shared, s.flag); }
  }

  lemma {:induction false} StepControlDrain(s: State)
    requires Control(s) && Enabled(s, DrainStep)
    ensures Control(Apply(s, DrainStep))
  {
    DrainMain(s.main, s.shared, s.ring.tail == s.ring.head);
  }

  lemma {:induction false} LockKept(lock: int, procs: seq<Enqueuer>, holding: bool, p: nat, e: Enqueuer)
    requires LockInv(lock, procs, holding) && p < |procs| && HoldsLock(procs[p]) == HoldsLock(e)
    ensures LockInv(lock, procs[p := e], holding)
    ensures !procs[p].Bumped? && !e.Bumped? ==> InFlight(lock, procs[p := e]) == InFlight(lock, procs)
  {
  }

  lemma {:induction false} LockTaken(procs: seq<Enqueuer>, p: nat, e: Enqueuer)
    requires LockInv(-1, procs, false) && p < |procs| && HoldsLock(e)
    ensures LockInv(p, procs[p := e], false)
  {
  }

  lemma {:induction false} LockReleased(lock: int, procs: seq<Enqueuer>, holding: bool, p: nat, e: Enqueuer)
    requires LockInv(lock, procs, holding) && p < |procs| && HoldsLock(procs[p]) && !HoldsLock(e)
    ensures lock == p && !holding && LockInv(-1, procs[p := e], false)
  {
  }

  lemma {:induction false} StepControlCheck(s: State, p: nat, req: Request)
    requires Control(s) && Enabled(s, Check(p, req))
    ensures Control(Apply(s, Check(p, req)))
  {
    LockKept(s.lock, s.procs, s.main.drain.Holding?, p, Checked(req));
  }

  lemma {:induction false} StepControlLock(s: State, p: nat)
    requires Control(s) && Enabled(s, Lock(p))
    ensures Control(Apply(s, Lock(p)))
  {
    LockTaken(s.procs, p, Locked(s.procs[p].req));
  }

  lemma {:induction false} StepControlBump(s: State, p: nat)
    requires Control(s) && Enabled(s, TestOrBump(p))
    ensures Control(Apply(s, TestOrBump(p)))
  {
    LockKept(s.lock, s.procs, s.main.drain.Holding?, p, Bumped(s.procs[p].req));
    LockReleased(s.lock, s.procs, s.main.drain.Holding?, p, Away);
  }

  lemma {:induction false} StepControlRead(s: State, p: nat)
    requires Control(s) && Enabled(s, ReadSwitching(p))
    ensures Control(Apply(s, ReadSwitching(p)))
  {
    LockKept(s.lock, s.procs, s.main.drain.Holding?, p, SawSwitching(s.shared));
  }

  lemma {:induction false} StepControlUnlock(s: State, p: nat)
    requires Control(s) && Enabled(s, Unlock(p))
    ensures Control(Apply(s, Unlock(p)))
  {
    LockReleased(s.lock, s.procs, s.main.drain.Holding?, p, Unlocked(s.procs[p].saw));
  }

  lemma {:induction false} StepControlLeave(s: State, p: nat)
    requires Control(s) && Enabled(s, Leave(p))
    ensures Control(Apply(s, Leave(p)))
  {
    LockKept(s.lock, s.procs, s.main.drain.Holding?, p, Away);
    LockKept(s.lock, s.procs, s.main.drain.Holding?, p, FlagRaised);
    if p == 0 && !s.procs[p].saw {
      RegisterMain(s.main, s.shared, s.procs[0]);
      assert Apply(s, Leave(p)).main.drain.Holding? == s.main.drain.Holding?;
    }
  }

  lemma {:induction false} StepControlKill(s: State, p: nat)
    requires Control(s) && Enabled(s, Kill(p))
    ensures Control(Apply(s, Kill(p)))
  {
    LockKept(s.lock, s.procs, s.main.drain.Holding?, p, Away);
  }

  lemma {:induction false} StepControlWrite(s: State, p: nat)
    requires Control(s) && Enabled(s, Write(p))
    ensures Control(Apply(s, Write(p)))
  {
    WriteKeepsWindow(s.ring, s.ring.head, s.ring.tail, s.procs[p].req);
  }

  lemma {:induction false} StepControl(s: State, t: Step)
    requires Control(s) && Enabled(s, t)
    ensures Control(Apply(s, t))
  {
    match t
    case Check(p, req) => StepControlCheck(s, p, req);
    case Lock(p) => StepControlLock(s, p);
    case TestOrBump(p) => StepControlBump(s, p);
    case Write(p) => StepControlWrite(s, p);
    case ReadSwitching(p) => StepControlRead(s, p);
    case Unlock(p) => StepControlUnlock(s, p);
    case Leave(p) => StepControlLeave(s, p);
    case Kill(p) => StepControlKill(s, p);
    case DrainStep => StepControlDrain(s);
    case _ => StepControlMain(s, t);
  }

  // ----- theorems over whole runs -----

  lemma {:induction false} RunControl(s: State, ts: seq<Step>)
    requires Control(s) && IsRun(s, ts)
    ensures Control(Final(s, ts))
    decreases |ts|
  {
    if ts != [] {
      StepControl(s, ts[0]);
      RunControl(Apply(s, ts[0]), ts[1..]);
    }
  }

  // Over every interleaving the ring is a bounded first-in first-out queue:
  // what was dequeued is exactly the oldest accepted requests, unchanged and in
  // order, and the rest are still in their slots.
  lemma {:induction false} RingIsFifo(s: State, ts: seq<Step>)
    requires Initial(s) && IsRun(s, ts)
    ensures var f := Final(s, ts);
            && |f.ring.slots| == MAX_REQUEST_QUEUE_SIZE
            && f.dequeued <= f.accepted
            && |f.accepted| - |f.dequeued| <= 10
            && forall i :: |f.dequeued| <= i < |f.accepted| ==>
                 f.accepted[i] == f.ring.slots[i % MAX_REQUEST_QUEUE_SIZE]
  {
    RunControl(s, ts);
    RunCounters(s, ts);
    var f := Final(s, ts);
    forall i | |f.dequeued| <= i < |f.accepted|
      ensures f.accepted[i] == f.ring.slots[i % MAX_REQUEST_QUEUE_SIZE]
    {
      var k := i - |f.dequeued|;
      assert f.accepted[i] == f.ring.Window(f.ring.head, f.ring.tail - InFlight(f.lock, f.procs))[k];
    }
  }

  // The head counter is one less than the number of requests dequeued.
  lemma {:induction false} RunCounters(s: State, ts: seq<Step>)
    requires s.ring.head == |s.dequeued| - 1 && IsRun(s, ts)
    ensures Final(s, ts).ring.head == |Final(s, ts).dequeued| - 1
    decreases |ts|
  {
    if ts != [] {
      RunCounters(Apply(s, ts[0]), ts[1..]);
    }
  }
}
