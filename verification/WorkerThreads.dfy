/**
 The threads of the `ocid` daemon.  Each worker runs `OcidThread.run`; the main
 thread runs `daemon_main`: it starts the workers, waits for the first iteration
 of each, tells systemd it is ready, sleeps until woken, asks every worker to
 stop and joins them.  A step is one shared access of one thread; a schedule is
 any sequence of enabled steps.
 */
module WorkerThreads {
  import Runs

  // ---- one worker --------------------------------------------------------------

  /** Where a worker is: the next thing it will do. */
  datatype Point =
    | NotStarted     // no th.start() yet
    | Starting       // self.active = True
    | Acquiring      // thread_lock.acquire()
    | Checking       // if not self.active
    | ShuttingDown   // release, break
    | Entering       // about to call ocidfunc
    | Calling        // inside ocidfunc
    | Releasing      // thread_lock.release()
    | Signalling     // first_iteration_evt.set()
    | Repeating      // if not self.repeat
    | Waiting        // blocking_evt.wait(sleeptime)
    | Finished

  /** `stopped` and `late` record history: request_stop has run; calls begun since then. */
  datatype Worker = Worker(
    pc: Point, active: bool, locked: bool, blocking: bool, first: bool,
    calls: nat, stopped: bool, late: nat)

  const NEW := Worker(NotStarted, false, false, false, false, 0, false, 0)

  /** The wait ends by the event or by the timeout, so it never blocks; only the lock can. */
  predicate CanStep(w: Worker) {
    w.pc != NotStarted && w.pc != Finished && (w.pc == Acquiring ==> !w.locked)
  }

  function Next(w: Worker, repeat: bool): Worker {
    match w.pc
    case Starting => w.(pc := Acquiring, active := true)
    case Acquiring => w.(pc := Checking, locked := true)
    case Checking => w.(pc := if w.active then Entering else ShuttingDown)
    case ShuttingDown => w.(pc := Finished, locked := false)
    case Entering => w.(pc := Calling, late := if w.stopped then w.late + 1 else w.late)
    case Calling => w.(pc := Releasing, calls := w.calls + 1)
    case Releasing => w.(pc := Signalling, locked := false)
    case Signalling => w.(pc := Repeating, first := true)
    case Repeating => w.(pc := if repeat then Waiting else Finished)
    case Waiting => w.(pc := Acquiring)
    case _ => w
  }

  /** The two halves of request_stop. */
  function ClearActive(w: Worker): Worker {
    w.(active := false, stopped := true)
  }

  function SetBlocking(w: Worker): Worker {
    w.(blocking := true)
  }

  class OcidThread {
    const repeat: bool
    var pc: Point
    var active: bool
    var locked: bool
    var blockingEvt: bool
    var firstIterationEvt: bool
    var calls: nat
    var stopped: bool
    var late: nat

    function View(): Worker
      reads this
    {
      Worker(pc, active, locked, blockingEvt, firstIterationEvt, calls, stopped, late)
    }

    constructor (repeat: bool)
      ensures this.repeat == repeat && View() == NEW
    {
      this.repeat := repeat;
      pc, active, locked, blockingEvt, firstIterationEvt := NotStarted, false, false, false, false;
      calls, stopped, late := 0, false, 0;
    }

    /** A request that finds the worker past line `self.active = True` is in force afterwards; earlier it is not. */
    method RequestStop()
      modifies this
      ensures stopped && !active && blockingEvt
      ensures pc == old(pc) && calls == old(calls) && locked == old(locked)
      ensures late == old(late) && firstIterationEvt == old(firstIterationEvt)
      ensures old(WorkerOk(View(), repeat) && !stopped) ==>
                (StopInForce(View()) <==> pc != NotStarted && pc != Starting)
    {
      active, stopped := false, true;
      blockingEvt := true;
    }

    /** The next access of `run` keeps the worker in order and a stop in force, and with one brings the end nearer. */
    method Step()
      modifies this
      ensures View() == Next(old(View()), repeat)
      ensures old(WorkerOk(View(), repeat)) ==> Onward(old(View()), View(), repeat)
    {
      ghost var w := View();
      Access();
      if WorkerOk(w, repeat) {
        WorkerOnward(w, repeat);
      }
    }

    method Access()
      modifies this
      ensures View() == Next(old(View()), repeat)
    {
      match pc {
        case Starting => active := true; pc := Acquiring;
        case Acquiring => locked := true; pc := Checking;
        case Checking => pc := if active then Entering else ShuttingDown;
        case ShuttingDown => locked := false; pc := Finished;
        case Entering => late := if stopped then late + 1 else late; pc := Calling;
        case Calling => calls := calls + 1; pc := Releasing;
        case Releasing => locked := false; pc := Signalling;
        case Signalling => firstIterationEvt := true; pc := Repeating;
        case Repeating => pc := if repeat then Waiting else Finished;
        case Waiting => pc := Acquiring;
        case _ =>
      }
    }

    /** `run` with nobody interfering and repeat off: one call, then the end. */
    method RunOnce()
      requires View() == NEW && !repeat
      modifies this
      ensures pc == Finished && calls == 1 && firstIterationEvt && !locked
    {
      pc := Starting;
      while pc != Finished
        invariant WorkerOk(View(), repeat) && pc != NotStarted && !stopped
        decreases Rank(View(), repeat)
      {
        Step();
      }
    }
  }

  // ---- what every worker keeps, whatever the main thread does -----------------------

  predicate HoldsLock(pc: Point) {
    pc == Checking || pc == ShuttingDown || pc == Entering || pc == Calling || pc == Releasing
  }

  predicate BeforeCall(pc: Point) {
    pc == NotStarted || pc == Starting || pc == Acquiring || pc == Checking || pc == Entering || pc == Calling
  }

  predicate OnceOk(w: Worker) {
    && w.pc != Waiting && !w.stopped
    && w.calls == (if BeforeCall(w.pc) then 0 else 1)
    && (w.pc == Finished || w.pc == Repeating ==> w.first)
  }

  predicate WorkerOk(w: Worker, repeat: bool) {
    && (w.locked <==> HoldsLock(w.pc))
    && (w.first ==> w.calls > 0 && w.pc != NotStarted && w.pc != Starting)
    && (w.pc == NotStarted || w.pc == Starting ==> w.calls == 0 && w.late == 0)
    && (!w.stopped ==> w.late == 0 && w.pc != ShuttingDown)
    && (!w.stopped && w.pc != NotStarted && w.pc != Starting ==> w.active)
    && (!repeat ==> OnceOk(w))
    && (w.pc == Releasing || w.pc == Signalling || w.pc == Repeating || w.pc == Waiting ==> w.calls > 0)
    && (w.pc == Repeating || w.pc == Waiting || (w.pc == Finished && !w.stopped) ==> w.first)
    && (repeat && (w.pc == ShuttingDown || w.pc == Finished) ==> !w.active)
  }

  /** A stop request that finds the worker past line `self.active = True` stays in force. */
  predicate StopInForce(w: Worker) {
    && w.stopped && !w.active && w.pc != NotStarted && w.pc != Starting
    && w.late <= (if w.pc == Entering then 0 else 1)
  }

  /** Steps left before a worker ends: all of them without repeat, those after a stop request with it. */
  function Rank(w: Worker, repeat: bool): nat {
    match w.pc
    case NotStarted => 10
    case Starting => 9
    case Acquiring => if repeat then 3 else 8
    case Checking => if repeat then 2 else 7
    case ShuttingDown => 1
    case Entering => if repeat then 9 else 6
    case Calling => if repeat then 8 else 5
    case Releasing => if repeat then 7 else 4
    case Signalling => if repeat then 6 else 3
    case Repeating => if repeat then 5 else 2
    case Waiting => if repeat then 4 else 1
    case Finished => 0
  }

  /**
   In order still, a stop in force still, and with one - or without repeat - nearer
   the end; in the loop and active, one step nearer the next call.
   */
  predicate Onward(w: Worker, w': Worker, repeat: bool) {
    && WorkerOk(w', repeat)
    && (StopInForce(w) ==> StopInForce(w'))
    && (CanStep(w) && (StopInForce(w) || !repeat) ==> Rank(w', repeat) < Rank(w, repeat))
    && (repeat && w.active && Looping(w.pc) ==> Looping(w'.pc) && Progress(w') == Progress(w) + 1)
  }

  /** What a worker's own step keeps. */
  lemma WorkerStays(w: Worker, repeat: bool)
    requires WorkerOk(w, repeat)
    ensures WorkerOk(Next(w, repeat), repeat)
    ensures w.first ==> Next(w, repeat).first
    ensures w.pc != NotStarted ==> Next(w, repeat).pc != NotStarted
    ensures w.pc != NotStarted && w.pc != Starting ==> Next(w, repeat).pc != Starting
  {
  }

  /** A stop request stays in force, and brings the end of the worker nearer with every step. */
  lemma WorkerProgress(w: Worker, repeat: bool)
    requires WorkerOk(w, repeat)
    ensures StopInForce(w) ==> StopInForce(Next(w, repeat))
    ensures CanStep(w) && (StopInForce(w) || !repeat) ==> Rank(Next(w, repeat), repeat) < Rank(w, repeat)
  {
  }

  lemma WorkerOnward(w: Worker, repeat: bool)
    requires WorkerOk(w, repeat)
    ensures Onward(w, Next(w, repeat), repeat)
  {
    WorkerStays(w, repeat);
    WorkerProgress(w, repeat);
    if repeat && w.active && Looping(w.pc) {
      LoopStep(w);
    }
  }

  // ---- the system ---------------------------------------------------------------------

  datatype Main =
    | Spawning(i: nat)
    | Awaiting(i: nat)          // wait_first_iteration of worker i
    | Notifying                 // READY=1
    | Selecting                 // blocked on the fifo
    | Clearing(i: nat)          // request_stop of worker i, first half
    | Waking(i: nat)            // second half
    | Joining(i: nat)
    | Exited

  /** `awaits` is what `daemon_main` does; without it, main would go on at once. */
  datatype Driver = Driver(repeat: bool, awaits: bool)

  datatype System = System(workers: seq<Worker>, main: Main, ready: bool)

  datatype Step = MainStep | WorkerStep(i: nat)

  function Initial(n: nat): System {
    System(seq(n, _ => NEW), Spawning(0), false)
  }

  predicate Enabled(s: System, step: Step) {
    match step
    case WorkerStep(i) => i < |s.workers| && CanStep(s.workers[i])
    case MainStep =>
      match s.main
      case Awaiting(i) => i < |s.workers| ==> s.workers[i].first
      case Joining(i) => i < |s.workers| ==> s.workers[i].pc == Finished
      case Exited => false
      case _ => true
  }

  function Apply(s: System, step: Step, d: Driver): System
    requires Enabled(s, step)
  {
    match step
    case WorkerStep(i) => s.(workers := s.workers[i := Next(s.workers[i], d.repeat)])
    case MainStep =>
      var n := |s.workers|;
      match s.main
      case Spawning(i) =>
        if i < n then s.(workers := s.workers[i := s.workers[i].(pc := Starting)], main := Spawning(i + 1))
        else s.(main := if !d.repeat then Joining(0) else if d.awaits then Awaiting(0) else Notifying)
      case Awaiting(i) => s.(main := if i < n then Awaiting(i + 1) else Notifying)
      case Notifying => s.(ready := true, main := Selecting)
      case Selecting => s.(main := Clearing(0))
      case Clearing(i) =>
        if i < n then s.(workers := s.workers[i := ClearActive(s.workers[i])], main := Waking(i))
        else s.(main := Joining(0))
      case Waking(i) =>
        if i < n then s.(workers := s.workers[i := SetBlocking(s.workers[i])], main := Clearing(i + 1))
        else s
      case Joining(i) => s.(main := if i < n then Joining(i + 1) else Exited)
      case Exited => s
  }

  /** The states a schedule passes through. */
  predicate IsRun(run: seq<System>, steps: seq<Step>, d: Driver) {
    && |run| == |steps| + 1
    && forall i :: 0 <= i < |steps| ==> Enabled(run[i], steps[i]) && run[i + 1] == Apply(run[i], steps[i], d)
  }

  // ---- the invariant ---------------------------------------------------------------------

  /** How many workers main has started, and how many it has asked to stop. */
  function Spawned(s: System): nat {
    if s.main.Spawning? then s.main.i else |s.workers|
  }

  function Asked(s: System, d: Driver): nat {
    if !d.repeat then 0
    else match s.main
      case Clearing(i) => i
      case Waking(i) => i + 1
      case Joining(_) => |s.workers|
      case Exited => |s.workers|
      case _ => 0
  }

  /** How many workers main has woken from their wait. */
  function Woken(s: System, d: Driver): nat {
    if !d.repeat then 0
    else match s.main
      case Clearing(i) => i
      case Waking(i) => i
      case Joining(_) => |s.workers|
      case Exited => |s.workers|
      case _ => 0
  }

  predicate MainOk(s: System, d: Driver) {
    var n := |s.workers|;
    && (s.main.Spawning? || s.main.Awaiting? || s.main.Clearing? || s.main.Joining? ==> s.main.i <= n)
    && (s.main.Waking? ==> s.main.i < n)
    && (!d.repeat ==> s.main.Spawning? || s.main.Joining? || s.main.Exited?)
    && (s.main.Joining? ==> forall i :: 0 <= i < s.main.i ==> s.workers[i].pc == Finished)
    && (s.main.Exited? ==> forall i :: 0 <= i < n ==> s.workers[i].pc == Finished)
  }

  /** Workers main has waited for. */
  function Awaited(s: System): nat {
    match s.main
    case Spawning(_) => 0
    case Awaiting(i) => i
    case _ => |s.workers|
  }

  predicate Inv(s: System, d: Driver) {
    && MainOk(s, d)
    && (forall i :: 0 <= i < |s.workers| ==>
          && WorkerOk(s.workers[i], d.repeat)
          && (s.workers[i].pc == NotStarted <==> i >= Spawned(s))
          && (s.workers[i].stopped <==> i < Asked(s, d))
          && (s.workers[i].blocking <==> i < Woken(s, d)))
    && (d.repeat && d.awaits ==>
          && (forall i :: 0 <= i < |s.workers| && i < Awaited(s) ==> s.workers[i].first)
          && (forall i :: 0 <= i < |s.workers| && i < Asked(s, d) ==> StopInForce(s.workers[i])))
    && (s.ready <==> d.repeat && !s.main.Spawning? && !s.main.Awaiting? && !s.main.Notifying?)
  }

  lemma InitialInv(n: nat, d: Driver)
    ensures Inv(Initial(n), d)
  {
  }

  /** What no step of a worker takes from it. */
  predicate Stays(w: Worker, w': Worker, repeat: bool) {
    && WorkerOk(w', repeat) && w'.stopped == w.stopped && w'.blocking == w.blocking
    && (w.first ==> w'.first) && (w.pc == Finished ==> w'.pc == Finished)
    && (w'.pc == NotStarted <==> w.pc == NotStarted)
    && (StopInForce(w) ==> StopInForce(w'))
  }

  lemma OwnStepStays(w: Worker, repeat: bool)
    requires WorkerOk(w, repeat)
    ensures Stays(w, Next(w, repeat), repeat)
  {
    WorkerStays(w, repeat);
    WorkerProgress(w, repeat);
  }

  lemma ReplaceKeepsInv(s: System, i: nat, w: Worker, d: Driver)
    requires Inv(s, d) && i < |s.workers| && Stays(s.workers[i], w, d.repeat)
    ensures Inv(s.(workers := s.workers[i := w]), d)
  {
    var t := s.(workers := s.workers[i := w]);
    forall j | 0 <= j < |t.workers| ensures Stays(s.workers[j], t.workers[j], d.repeat) {}
  }

  lemma WorkerKeepsInv(s: System, i: nat, d: Driver)
    requires Inv(s, d) && Enabled(s, WorkerStep(i))
    ensures Inv(Apply(s, WorkerStep(i), d), d)
  {
    OwnStepStays(s.workers[i], d.repeat);
    ReplaceKeepsInv(s, i, Next(s.workers[i], d.repeat), d);
  }

  lemma SpawnKeepsInv(s: System, d: Driver)
    requires Inv(s, d) && s.main.Spawning?
    ensures Inv(Apply(s, MainStep, d), d)
  {
    var s' := Apply(s, MainStep, d);
    forall i | 0 <= i < |s'.workers| && i != s.main.i ensures s'.workers[i] == s.workers[i] {}
  }

  lemma ClearKeepsInv(s: System, d: Driver)
    requires Inv(s, d) && s.main.Clearing?
    ensures Inv(Apply(s, MainStep, d), d)
  {
    var s' := Apply(s, MainStep, d);
    forall i | 0 <= i < |s'.workers| && i != s.main.i ensures s'.workers[i] == s.workers[i] {}
  }

  lemma WakeKeepsInv(s: System, d: Driver)
    requires Inv(s, d) && s.main.Waking?
    ensures Inv(Apply(s, MainStep, d), d)
  {
    var s' := Apply(s, MainStep, d);
    forall i | 0 <= i < |s'.workers| && i != s.main.i ensures s'.workers[i] == s.workers[i] {}
  }

  lemma JoinKeepsInv(s: System, d: Driver)
    requires Inv(s, d) && s.main.Joining? && Enabled(s, MainStep)
    ensures Inv(Apply(s, MainStep, d), d)
  {
  }

  lemma AwaitKeepsInv(s: System, d: Driver)
    requires Inv(s, d) && s.main.Awaiting? && Enabled(s, MainStep)
    ensures Inv(Apply(s, MainStep, d), d)
  {
  }

  lemma MainKeepsInv(s: System, d: Driver)
    requires Inv(s, d) && Enabled(s, MainStep)
    ensures Inv(Apply(s, MainStep, d), d)
  {
    match s.main {
      case Spawning(_) => SpawnKeepsInv(s, d);
      case Clearing(_) => ClearKeepsInv(s, d);
      case Waking(_) => WakeKeepsInv(s, d);
      case Joining(_) => JoinKeepsInv(s, d);
      case Awaiting(_) => AwaitKeepsInv(s, d);
      case _ =>
    }
  }

  lemma {:induction false} RunKeepsInv(run: seq<System>, steps: seq<Step>, d: Driver, k: nat)
    requires IsRun(run, steps, d) && Inv(run[0], d) && k < |run|
    ensures Inv(run[k], d)
  {
    if k > 0 {
      RunKeepsInv(run, steps, d, k - 1);
      if steps[k - 1] == MainStep {
        MainKeepsInv(run[k - 1], d);
      } else {
        WorkerKeepsInv(run[k - 1], steps[k - 1].i, d);
      }
    }
  }

  // ---- stop requests ---------------------------------------------------------------------------

  lemma {:induction false} StaysStopped(run: seq<System>, steps: seq<Step>, d: Driver, k: nat, j: nat, i: nat)
    requires IsRun(run, steps, d) && k <= j < |run| && i < |run[k].workers|
    ensures |run[j].workers| == |run[k].workers|
    ensures run[k].workers[i].stopped ==> run[j].workers[i].stopped
  {
    if k < j {
      StaysStopped(run, steps, d, k, j - 1, i);
    }
  }

  /**
   Under `daemon_main`'s order no stop request is lost: once a worker has been
   asked, `active` is false in every later state of every schedule, and the
   worker begins at most one more call.
   */
  lemma NoStopIsLost(run: seq<System>, steps: seq<Step>, n: nat, k: nat, j: nat, i: nat)
    requires IsRun(run, steps, Driver(true, true)) && run[0] == Initial(n)
    requires k <= j < |run| && i < |run[k].workers| && run[k].workers[i].stopped
    ensures i < |run[j].workers| && !run[j].workers[i].active && run[j].workers[i].late <= 1
  {
    var d := Driver(true, true);
    StaysStopped(run, steps, d, k, j, i);
    InitialInv(n, d);
    RunKeepsInv(run, steps, d, j);
  }

  /** systemd hears READY only when every worker has completed a call. */
  lemma ReadyMeansEveryWorkerRan(run: seq<System>, steps: seq<Step>, n: nat, k: nat, i: nat)
    requires IsRun(run, steps, Driver(true, true)) && run[0] == Initial(n)
    requires k < |run| && run[k].ready && i < |run[k].workers|
    ensures run[k].workers[i].calls > 0
  {
    var d := Driver(true, true);
    InitialInv(n, d);
    RunKeepsInv(run, steps, d, k);
  }

  /** And it does hear READY, before main sleeps until it is woken to stop. */
  lemma ReadyIsSent(run: seq<System>, steps: seq<Step>, awaits: bool, n: nat, k: nat)
    requires IsRun(run, steps, Driver(true, awaits)) && run[0] == Initial(n) && k < |run|
    ensures run[k].main == Selecting || run[k].main.Clearing? || run[k].main.Joining? ==> run[k].ready
    ensures run[k].main.Joining? || run[k].main.Exited? ==>
              forall i :: 0 <= i < |run[k].workers| ==> run[k].workers[i].stopped && run[k].workers[i].blocking
  {
    var d := Driver(true, awaits);
    InitialInv(n, d);
    RunKeepsInv(run, steps, d, k);
  }

  /** A refresh calls each function exactly once before the program exits. */
  lemma RefreshCallsOnce(run: seq<System>, steps: seq<Step>, awaits: bool, n: nat, k: nat, i: nat)
    requires IsRun(run, steps, Driver(false, awaits)) && run[0] == Initial(n)
    requires k < |run| && run[k].main == Exited && i < |run[k].workers|
    ensures run[k].workers[i].calls == 1 && !run[k].ready
  {
    var d := Driver(false, awaits);
    InitialInv(n, d);
    RunKeepsInv(run, steps, d, k);
  }

  // ---- the calls keep coming ----------------------------------------------------------------------

  /** In the loop of `run`. */
  predicate Looping(pc: Point) {
    pc != NotStarted && pc != Starting && pc != ShuttingDown && pc != Finished
  }

  /** Steps up to and with the end of the next call. */
  function UntilCall(pc: Point): nat
    requires Looping(pc)
  {
    match pc
    case Calling => 1
    case Entering => 2
    case Checking => 3
    case Acquiring => 4
    case Waiting => 5
    case Repeating => 6
    case Signalling => 7
    case Releasing => 8
  }

  /** Eight times the calls made, and the part of the next round already done. */
  function Progress(w: Worker): int
    requires Looping(w.pc)
  {
    8 * w.calls - UntilCall(w.pc)
  }

  lemma LoopStep(w: Worker)
    requires WorkerOk(w, true) && Looping(w.pc) && w.active
    ensures CanStep(w)
    ensures Looping(Next(w, true).pc) && Progress(Next(w, true)) == Progress(w) + 1 && Next(w, true).active
  {
  }

  /** The steps worker `i` takes between moments `m` and `n`. */
  function StepsOf(steps: seq<Step>, i: nat, m: nat, n: nat): nat
    requires m <= n <= |steps|
  {
    if m == n then 0 else StepsOf(steps, i, m, n - 1) + (if steps[n - 1] == WorkerStep(i) then 1 else 0)
  }

  /** Other threads do not move a worker that has been started. */
  lemma OthersLeaveIt(s: System, step: Step, d: Driver, i: nat)
    requires Inv(s, d) && Enabled(s, step) && step != WorkerStep(i)
    requires i < |s.workers| && s.workers[i].pc != NotStarted
    ensures var (w, w') := (s.workers[i], Apply(s, step, d).workers[i]);
            w'.pc == w.pc && w'.calls == w.calls && w'.first == w.first
  {
  }

  /** One step of anyone, for a worker in its loop. */
  lemma StepProgress(s: System, step: Step, d: Driver, i: nat)
    requires Inv(s, d) && Enabled(s, step) && d.repeat
    requires i < |s.workers| && Looping(s.workers[i].pc) && s.workers[i].active
    ensures i < |Apply(s, step, d).workers|
    ensures var (w, w') := (s.workers[i], Apply(s, step, d).workers[i]);
            Looping(w'.pc) && Progress(w') == Progress(w) + if step == WorkerStep(i) then 1 else 0
  {
    if step == WorkerStep(i) {
      LoopStep(s.workers[i]);
    } else {
      OthersLeaveIt(s, step, d, i);
    }
  }

  predicate ActiveThrough(run: seq<System>, i: nat, m: nat, n: nat)
    requires m <= n < |run|
  {
    forall x :: m <= x <= n ==> i < |run[x].workers| && run[x].workers[i].active
  }

  predicate InStep(run: seq<System>, steps: seq<Step>, i: nat, m: nat, x: nat) {
    && m <= x < |run| && x <= |steps| && i < |run[m].workers| && i < |run[x].workers|
    && Looping(run[m].workers[i].pc) && Looping(run[x].workers[i].pc)
    && Progress(run[x].workers[i]) == Progress(run[m].workers[i]) + StepsOf(steps, i, m, x)
  }

  lemma {:induction false} OneStepMakes(
      run: seq<System>, steps: seq<Step>, d: Driver, workers: nat, i: nat, m: nat, x: nat)
    requires IsRun(run, steps, d) && d.repeat && run[0] == Initial(workers) && x < |steps|
    requires InStep(run, steps, i, m, x) && run[x].workers[i].active
    ensures InStep(run, steps, i, m, x + 1)
  {
    InitialInv(workers, d);
    RunKeepsInv(run, steps, d, x);
    assert Enabled(run[x], steps[x]) && run[x + 1] == Apply(run[x], steps[x], d);
    StepProgress(run[x], steps[x], d, i);
  }

  /** While a worker stays active, every step of its own brings the next call one step nearer. */
  lemma {:induction false} StepsMakeCalls(
      run: seq<System>, steps: seq<Step>, awaits: bool, workers: nat, i: nat, m: nat, n: nat)
    requires IsRun(run, steps, Driver(true, awaits)) && run[0] == Initial(workers) && m <= n < |run|
    requires ActiveThrough(run, i, m, n) && Looping(run[m].workers[i].pc)
    ensures InStep(run, steps, i, m, n)
  {
    forall x: nat | m <= x < n && InStep(run, steps, i, m, x) ensures InStep(run, steps, i, m, x + 1) {
      OneStepMakes(run, steps, Driver(true, awaits), workers, i, m, x);
    }
    Runs.KeptBetween((x: nat) => InStep(run, steps, i, m, x), m, n);
  }

  /**
   The daemon's purpose: a repeating worker that has been started and stays
   active makes a call in every eight steps of its own, in every schedule, and
   is never blocked.
   */
  lemma {:induction false} CallsKeepComing(
      run: seq<System>, steps: seq<Step>, awaits: bool, workers: nat, i: nat, m: nat, n: nat)
    requires IsRun(run, steps, Driver(true, awaits)) && run[0] == Initial(workers) && m <= n < |run|
    requires ActiveThrough(run, i, m, n)
    requires run[m].workers[i].pc != NotStarted && run[m].workers[i].pc != Starting
    ensures CanStep(run[n].workers[i])
    ensures StepsOf(steps, i, m, n) - 7 <= 8 * (run[n].workers[i].calls - run[m].workers[i].calls)
                                        <= StepsOf(steps, i, m, n) + 7
    ensures StepsOf(steps, i, m, n) >= 8 ==> run[n].workers[i].calls > run[m].workers[i].calls
  {
    var d := Driver(true, awaits);
    InitialInv(workers, d);
    RunKeepsInv(run, steps, d, m);
    assert run[m].workers[i].active;
    StepsMakeCalls(run, steps, awaits, workers, i, m, n);
    RunKeepsInv(run, steps, d, n);
    assert run[n].workers[i].active;
    LoopStep(run[n].workers[i]);
  }

  /** How far a worker is on its way to the end of its first iteration. */
  function TowardsFirst(w: Worker): nat {
    if w.first then 7
    else match w.pc
      case Acquiring => 1
      case Checking => 2
      case Entering => 3
      case Calling => 4
      case Releasing => 5
      case Signalling => 6
      case _ => 0
  }

  lemma FirstStep(w: Worker, repeat: bool)
    requires WorkerOk(w, repeat) && CanStep(w) && (!w.stopped || (repeat && w.active && Looping(w.pc)))
    ensures TowardsFirst(Next(w, repeat)) > TowardsFirst(w) || Next(w, repeat).first
  {
  }

  /** `r` is `k` undisturbed steps of an active worker after `w`. */
  predicate KStepsOn(w: Worker, r: Worker, k: nat) {
    && Looping(w.pc) && WorkerOk(r, true) && r.active && Looping(r.pc) && r.blocking == w.blocking
    && Progress(r) == Progress(w) + k && (r.first || TowardsFirst(r) >= k)
  }

  lemma OneStepOn(w: Worker, r: Worker, k: nat)
    requires KStepsOn(w, r, k)
    ensures KStepsOn(w, Next(r, true), k + 1)
  {
    WorkerStays(r, true);
    LoopStep(r);
    FirstStep(r, true);
    OwnStepStays(r, true);
  }

  lemma FirstIsSeven(w: Worker)
    ensures TowardsFirst(w) >= 7 <==> w.first
  {
  }

  /** Whole rounds later the worker is at the same place. */
  lemma RoundsOn(w: Worker, r: Worker, m: nat)
    requires WorkerOk(w, true) && KStepsOn(w, r, 8 * m)
    ensures r.pc == w.pc && r.calls == w.calls + m && (m > 0 ==> r.first) && r.locked == w.locked
  {
    FirstIsSeven(r);
    assert UntilCall(r.pc) == UntilCall(w.pc);
  }

  /** Undisturbed, every eight steps are one round: the same place, one more call, and the first iteration signalled. */
  lemma {:induction false} Rounds(ws: seq<Worker>, m: nat)
    requires |ws| == 8 * m + 1 && forall k :: 0 <= k < 8 * m ==> ws[k + 1] == Next(ws[k], true)
    requires WorkerOk(ws[0], true) && ws[0].active && Looping(ws[0].pc)
    ensures var (w, r) := (ws[0], ws[8 * m]);
            && r.pc == w.pc && r.calls == w.calls + m && (m > 0 ==> r.first)
            && r.active && r.locked == w.locked && r.blocking == w.blocking
  {
    var good := (k: nat) => k < |ws| && KStepsOn(ws[0], ws[k], k);
    forall k: nat | k < 8 * m && good(k) ensures good(k + 1) {
      OneStepOn(ws[0], ws[k], k);
    }
    Runs.KeptBetween(good, 0, 8 * m);
    RoundsOn(ws[0], ws[8 * m], m);
  }

  /** One step of anyone, for a worker that has been started and not asked to stop. */
  lemma StepTowardsFirst(s: System, step: Step, d: Driver, i: nat)
    requires Inv(s, d) && Enabled(s, step)
    requires i < |s.workers| && s.workers[i].pc != NotStarted && !s.workers[i].stopped
    ensures i < |Apply(s, step, d).workers|
    ensures var (w, w') := (s.workers[i], Apply(s, step, d).workers[i]);
            w'.first || TowardsFirst(w') >= TowardsFirst(w) + if step == WorkerStep(i) then 1 else 0
  {
    if step == WorkerStep(i) {
      FirstStep(s.workers[i], d.repeat);
    } else {
      OthersLeaveIt(s, step, d, i);
    }
  }

  /** What has been started stays so, and what has been asked to stop too. */
  lemma {:induction false} BothStay(run: seq<System>, steps: seq<Step>, d: Driver, m: nat, n: nat, i: nat)
    requires IsRun(run, steps, d) && m <= n < |run| && i < |run[m].workers|
    ensures |run[n].workers| == |run[m].workers|
    ensures run[m].workers[i].pc != NotStarted ==> run[n].workers[i].pc != NotStarted
    ensures run[m].workers[i].stopped ==> run[n].workers[i].stopped
  {
    StaysStopped(run, steps, d, m, n, i);
    if run[m].workers[i].pc != NotStarted {
      StaysStarted(run, steps, d, m, n, i);
    }
  }

  lemma RunTowardsFirst(run: seq<System>, steps: seq<Step>, d: Driver, workers: nat, i: nat, n: nat)
    requires IsRun(run, steps, d) && run[0] == Initial(workers) && n < |steps| && i < |run[n].workers|
    requires run[n].workers[i].pc != NotStarted && !run[n].workers[i].stopped
    ensures i < |run[n + 1].workers|
    ensures var (w, w') := (run[n].workers[i], run[n + 1].workers[i]);
            w'.first || TowardsFirst(w') >= TowardsFirst(w) + if steps[n] == WorkerStep(i) then 1 else 0
  {
    InitialInv(workers, d);
    RunKeepsInv(run, steps, d, n);
    assert Enabled(run[n], steps[n]) && run[n + 1] == Apply(run[n], steps[n], d);
    StepTowardsFirst(run[n], steps[n], d, i);
  }

  predicate ComesToFirst(run: seq<System>, steps: seq<Step>, i: nat, m: nat, x: nat) {
    && m <= x < |run| && x <= |steps| && i < |run[x].workers|
    && (run[x].workers[i].first || TowardsFirst(run[x].workers[i]) >= StepsOf(steps, i, m, x))
  }

  lemma {:induction false} StepsTowardsFirst(
      run: seq<System>, steps: seq<Step>, d: Driver, workers: nat, i: nat, m: nat, n: nat)
    requires IsRun(run, steps, d) && run[0] == Initial(workers) && m <= n < |run|
    requires i < |run[m].workers| && run[m].workers[i].pc != NotStarted
    requires i < |run[n].workers| && !run[n].workers[i].stopped
    ensures ComesToFirst(run, steps, i, m, n)
  {
    forall x: nat | m <= x < n && ComesToFirst(run, steps, i, m, x) ensures ComesToFirst(run, steps, i, m, x + 1) {
      OneStepToFirst(run, steps, d, workers, i, m, x, n);
    }
    Runs.KeptBetween((x: nat) => ComesToFirst(run, steps, i, m, x), m, n);
  }

  lemma {:induction false} OneStepToFirst(
      run: seq<System>, steps: seq<Step>, d: Driver, workers: nat, i: nat, m: nat, x: nat, n: nat)
    requires IsRun(run, steps, d) && run[0] == Initial(workers) && m <= x < n < |run|
    requires i < |run[m].workers| && run[m].workers[i].pc != NotStarted
    requires i < |run[n].workers| && !run[n].workers[i].stopped
    requires ComesToFirst(run, steps, i, m, x)
    ensures ComesToFirst(run, steps, i, m, x + 1)
  {
    BothStay(run, steps, d, m, x, i);
    BothStay(run, steps, d, x, n, i);
    RunTowardsFirst(run, steps, d, workers, i, x);
    FirstIsSeven(run[x].workers[i]);
  }

  /** A worker that main has started, and not asked to stop, ends its first iteration within seven steps of its own. */
  lemma {:induction false} FirstIterationComes(
      run: seq<System>, steps: seq<Step>, d: Driver, workers: nat, i: nat, m: nat, n: nat)
    requires IsRun(run, steps, d) && run[0] == Initial(workers) && m <= n < |run|
    requires i < |run[m].workers| && run[m].workers[i].pc != NotStarted
    requires i < |run[n].workers| && !run[n].workers[i].stopped && StepsOf(steps, i, m, n) >= 7
    ensures run[n].workers[i].first
    ensures run[n].main == Awaiting(i) ==> Enabled(run[n], MainStep)
  {
    StepsTowardsFirst(run, steps, d, workers, i, m, n);
    FirstIsSeven(run[n].workers[i]);
  }

  lemma {:induction false} StaysStarted(run: seq<System>, steps: seq<Step>, d: Driver, m: nat, n: nat, i: nat)
    requires IsRun(run, steps, d) && m <= n < |run| && i < |run[m].workers|
    requires run[m].workers[i].pc != NotStarted
    ensures i < |run[n].workers| && run[n].workers[i].pc != NotStarted
  {
    if m < n {
      StaysStarted(run, steps, d, m, n - 1, i);
    }
  }

  // ---- the joins finish ----------------------------------------------------------------------------

  function RankSum(ws: seq<Worker>, repeat: bool): nat {
    if ws == [] then 0 else RankSum(ws[..|ws| - 1], repeat) + Rank(ws[|ws| - 1], repeat)
  }

  lemma {:induction false} RankSumUpdate(ws: seq<Worker>, i: nat, w: Worker, repeat: bool)
    requires i < |ws|
    ensures RankSum(ws[i := w], repeat) == RankSum(ws, repeat) - Rank(ws[i], repeat) + Rank(w, repeat)
  {
    var n := |ws| - 1;
    if i < n {
      RankSumUpdate(ws[..n], i, w, repeat);
      assert ws[i := w][..n] == ws[..n][i := w];
    } else {
      assert ws[i := w][..n] == ws[..n];
    }
  }

  lemma {:induction false} RankSumBound(ws: seq<Worker>, repeat: bool)
    requires forall i :: 0 <= i < |ws| ==> ws[i].pc != NotStarted
    ensures RankSum(ws, repeat) <= 9 * |ws|
  {
    if ws != [] {
      RankSumBound(ws[..|ws| - 1], repeat);
    }
  }

  predicate Leaving(s: System, d: Driver) {
    Inv(s, d) && (s.main.Joining? || s.main.Exited?) && (d.repeat ==> d.awaits)
  }

  function Measure(s: System, d: Driver): int {
    RankSum(s.workers, d.repeat) + (if s.main.Joining? then |s.workers| - s.main.i + 1 else 0)
  }

  /** While main is joining, every step of anyone brings the end nearer. */
  lemma EveryStepCounts(s: System, step: Step, d: Driver)
    requires Leaving(s, d) && Enabled(s, step)
    ensures Leaving(Apply(s, step, d), d)
    ensures 0 <= Measure(Apply(s, step, d), d) < Measure(s, d)
  {
    if step == MainStep {
      MainKeepsInv(s, d);
    } else {
      WorkerKeepsInv(s, step.i, d);
      var w := s.workers[step.i];
      WorkerProgress(w, d.repeat);
      RankSumUpdate(s.workers, step.i, Next(w, d.repeat), d.repeat);
    }
  }

  /** Until the program has exited, somebody can move. */
  lemma NoDeadlockWhileJoining(s: System, d: Driver)
    requires Leaving(s, d) && s.main != Exited
    ensures exists step :: Enabled(s, step)
  {
    var i := s.main.i;
    if i < |s.workers| && s.workers[i].pc != Finished {
      assert Enabled(s, WorkerStep(i));
    } else {
      assert Enabled(s, MainStep);
    }
  }

  /** Every schedule that starts at the joins ends within 10 steps per worker and one more. */
  lemma {:induction false} JoinsFinish(run: seq<System>, steps: seq<Step>, d: Driver, k: nat)
    requires IsRun(run, steps, d) && Leaving(run[0], d) && run[0].main == Joining(0) && k < |run|
    ensures Leaving(run[k], d) && k + Measure(run[k], d) <= 10 * |run[0].workers| + 1
    ensures 0 <= Measure(run[k], d)
    ensures k <= 10 * |run[0].workers| + 1
  {
    if k == 0 {
      RankSumBound(run[0].workers, d.repeat);
    } else {
      JoinsFinish(run, steps, d, k - 1);
      EveryStepCounts(run[k - 1], steps[k - 1], d);
    }
  }

  lemma {:induction false} WorkersAreFixed(run: seq<System>, steps: seq<Step>, d: Driver, k: nat)
    requires IsRun(run, steps, d) && k < |run|
    ensures |run[k].workers| == |run[0].workers|
  {
    if k > 0 {
      WorkersAreFixed(run, steps, d, k - 1);
    }
  }

  /**
   The whole program: once main has come to the joins, at most 10n + 1 further
   steps are possible, and a schedule can only stop where the program has exited.
   */
  lemma ProgramEnds(run: seq<System>, steps: seq<Step>, d: Driver, n: nat, k: nat)
    requires IsRun(run, steps, d) && run[0] == Initial(n) && (d.repeat ==> d.awaits)
    requires k < |run| && run[k].main == Joining(0)
    ensures |steps| - k <= 10 * n + 1
    ensures (forall step :: !Enabled(run[|steps|], step)) ==> run[|steps|].main == Exited
  {
    InitialInv(n, d);
    RunKeepsInv(run, steps, d, k);
    WorkersAreFixed(run, steps, d, k);
    var rest, moves := run[k..], steps[k..];
    forall i | 0 <= i < |moves| ensures Enabled(rest[i], moves[i]) && rest[i + 1] == Apply(rest[i], moves[i], d) {
      assert rest[i] == run[k + i] && moves[i] == steps[k + i];
    }
    JoinsFinish(rest, moves, d, |moves|);
    assert rest[|moves|] == run[|steps|];
    if run[|steps|].main != Exited {
      NoDeadlockWhileJoining(run[|steps|], d);
    }
  }

  // ---- why main must wait ------------------------------------------------------------------------------

  /**
   A stop request holds for good exactly when it finds the worker past the
   line that sets `active`: found before it, the worker's own first step
   erases the request; found after it, no later step does.
   */
  lemma WhenAStopHolds(w: Worker, repeat: bool)
    requires WorkerOk(w, repeat) && CanStep(w) && !w.stopped
    ensures var asked := SetBlocking(ClearActive(w));
            && (Next(asked, repeat).active <==> w.pc == Starting)
            && (StopInForce(asked) <==> w.pc != Starting)
  {
  }

  /** Once main is joining and a worker is active, no schedule whatever lets main get past that worker. */
  predicate Lost(s: System, i: nat) {
    && i < |s.workers| && s.main.Joining? && s.main.i <= i
    && s.workers[i].active && s.workers[i].pc != Finished && s.workers[i].pc != ShuttingDown
    && s.workers[i].pc != NotStarted
  }

  lemma {:induction false} LostForever(run: seq<System>, steps: seq<Step>, d: Driver, i: nat, k: nat)
    requires IsRun(run, steps, d) && d.repeat && Lost(run[0], i) && k < |run|
    ensures Lost(run[k], i)
  {
    if k > 0 {
      LostForever(run, steps, d, i, k - 1);
    }
  }

  /** A main thread that does not wait can get there: the stop request comes before the worker's first step. */
  lemma HastyMainLosesAStop() returns (run: seq<System>, steps: seq<Step>)
    ensures IsRun(run, steps, Driver(true, false)) && run[0] == Initial(1)
    ensures Lost(run[|run| - 1], 0) && run[|run| - 1].workers[0].stopped
  {
    var d := Driver(true, false);
    steps := [];
    run := [Initial(1)];
    var script := [MainStep, MainStep, MainStep, MainStep, MainStep, MainStep, MainStep, WorkerStep(0)];
    var s1 := Apply(run[0], MainStep, d);
    var s2 := Apply(s1, MainStep, d);
    var s3 := Apply(s2, MainStep, d);
    var s4 := Apply(s3, MainStep, d);
    var s5 := Apply(s4, MainStep, d);
    var s6 := Apply(s5, MainStep, d);
    var s7 := Apply(s6, MainStep, d);
    var s8 := Apply(s7, WorkerStep(0), d);
    run, steps := [run[0], s1, s2, s3, s4, s5, s6, s7, s8], script;
  }
}
