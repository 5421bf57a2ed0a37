/**
 The life of one task as a labelled transition system: the launch callback, the
 container monitor, the loop goroutine that checks the container for it, kill
 callbacks, the signal handler and the goroutines waiting on the WaitGroup.

 The loop goroutine writes the monitor's `exitCode`, and keeps doing so after
 the signal handler released the monitor's Wait, so reading and writing that
 variable are steps of their own. The looper is only assumed to have a quit
 flag, to stop once its body returned an error, and to make Wait return when
 the loop ended or Done was called; Wait may return at any time after that.
 Sleeps are steps that may be taken at any time. The process also ends when the
 driver's Run returns, which it may do without having been stopped.

 `stopTried` is whether the monitor itself tried to stop the container, and
 `log` records in order what was done to the outside and to the WaitGroup.
 */
module TaskLifecycle {
  import opened Options

  /** StillRunning in the program: no exit code is known. */
  const UNKNOWN := -1

  /**
   `role` is "" when no AWS role is configured; `privateToken` says that Vault issued
   a token for this task alone; `drainable` is whether the draining duration, the
   Sidecar URL and the container ID allow a drain.
   */
  datatype Config = Config(role: string, hasTtl: bool, checkSidecar: bool, drainable: bool, privateToken: bool)

  /** A kill drains the service: otherwise nothing is posted, and nobody waits for the watcher. */
  predicate Drains(c: Config) {
    c.checkSidecar && c.drainable
  }

  datatype Status = Running | Finished | Failed | Killed

  datatype Lease = Lease(id: string, role: string, vars: seq<string>, expiry: int)

  /** What LaunchTask does between telling Mesos RUNNING and starting the monitor. */
  datatype Stage = Pull | Creds | Ttl | Decrypt | Create | Start

  datatype Launch = Idle | Doing(stage: Stage) | Failing | FailSent | FailStopped | Launched

  /** Where a run of checkContainerStatus is; `err` is whether it returns an error. */
  datatype Check = Listing | Inspecting | Polling | Returning(code: int, err: bool)

  datatype Monitor =
    | Absent
    | Backoff
    | Added
    | InWait
    | FirstTest
    | Stopping
    | SecondTest
    | Rechecking(check: Check)
    | LeaseCleanup
    | TokenCleanup
    | Reading
    | Reporting(code: int)
    | Reported(code: int)
    | Stopped(code: int)
    | Over(code: int)

  datatype Loop = NotStarted | Between | Body(check: Check) | Ended

  datatype Kill = Draining | AtStop | AtQuit | KillOver

  datatype Signal = Untouched | AtWaitGroup | Exiting

  datatype Waiter = DrainOf(kill: nat) | SignalHandler

  datatype Effect =
    | Sent(status: Status)
    | DriverStopped
    | Leased(lease: Lease)
    | Renewed(id: string, expiry: int)
    | LeaseRevoked(id: string, role: string)
    | TokenRevoked
    | WatcherAdded
    | WatcherDone
    | WaitEnded
    | ContainerGone
    | Inspected(code: int)
    | StopTried
    | Drained(kill: nat, cutShort: bool)
    | KillStopped(kill: nat)
    | KillQuit(kill: nat)
    | Freed(waiter: Waiter)

  datatype State = State(
    launch: Launch,
    monitor: Monitor,
    loop: Loop,
    exitCode: int,
    waitCount: int,
    quit: bool,
    waitOver: bool,
    stopTried: bool,
    lease: Option<Lease>,
    kills: map<nat, Kill>,
    signal: Signal,
    exited: bool,
    log: seq<Effect>)

  /** How one step of checkContainerStatus turns out. */
  datatype Outcome = ListFails | Present | Gone | InspectFails | Inspects(code: int) | Polled(unhealthy: bool)

  datatype Action =
    // LaunchTask; `ok` is whether the send worked, for a failed send is a panic, as is an
    // environment entry that cannot be split
    | LaunchBegins(ok: bool)
    | StagePasses(stage: Stage)
    | CredsPass(id: string, vars: seq<string>, expiry: int)
    | TtlPass(id: string, expiry: int)
    | StageFails
    | StageCrashes
    | LaunchFailReports(ok: bool)
    | LaunchFailStops
    // monitorTask
    | Add
    | LoopStarts
    | WaitReturns
    | TestsFirst
    | TriesStop
    | TestsSecond
    | RecheckStep(outcome: Outcome)
    | RecheckReturns
    | CleansLease
    | CleansToken
    | ReadsCode
    | Reports(ok: bool)
    | StopsDriver
    | SignsOff
    // The loop goroutine
    | Iterates
    | BodyStep(outcome: Outcome)
    | BodyReturns
    | SeesQuit
    // KillTask; a drain is cut short when its final wait ends because the watcher is done
    | KillBegins(kill: nat)
    | KillDrained(kill: nat, cutShort: bool)
    | KillStops(kill: nat)
    | KillQuits(kill: nat)
    // handleSignals, the waiters, and main when Run returned, after a stop or without one
    | SignalArrives(usr1: bool)
    | WaiterFreed(waiter: Waiter)
    | SignalExits
    | MainExits(stopped: bool)

  function Init(): State {
    State(Idle, Absent, NotStarted, UNKNOWN, 0, false, false, false, None, map[], Untouched, false, [])
  }

  /** The stage after this one, if the launch is not complete. */
  function NextStage(c: Config, stage: Stage): Option<Stage> {
    match stage
    case Pull => Some(if c.role != "" then Creds else Decrypt)
    case Creds => Some(if c.hasTtl then Ttl else Decrypt)
    case Ttl => Some(Decrypt)
    case Decrypt => Some(Create)
    case Create => Some(Start)
    case Start => None
  }

  /** What handleContainerExit makes of an exit code. */
  function StatusFor(code: int): Status {
    if 128 < code <= 165 then Killed
    else if code > 0 then Failed
    else if code < 0 then Failed
    else Finished
  }

  predicate CheckCan(check: Check, o: Outcome) {
    match check
    case Listing => o.ListFails? || o.Present? || o.Gone?
    case Inspecting => o.InspectFails? || o.Inspects?
    case Polling => o.Polled?
    case Returning(_, _) => false
  }

  function CheckNext(c: Config, check: Check, o: Outcome): Check
    requires CheckCan(check, o)
  {
    match o
    case ListFails => Returning(UNKNOWN, true)
    case Present => if c.checkSidecar then Polling else Returning(UNKNOWN, false)
    case Gone => Inspecting
    case InspectFails => Returning(UNKNOWN, true)
    case Inspects(code) => Returning(code, code != 0)
    case Polled(unhealthy) => Returning(UNKNOWN, unhealthy)
  }

  predicate CanBeFreed(s: State, w: Waiter) {
    && s.waitCount == 0
    && match w
       case DrainOf(k) => k in s.kills
       case SignalHandler => s.signal.AtWaitGroup?
  }

  predicate CanDo(c: Config, s: State, a: Action) {
    match a
    case LaunchBegins(_) => s.launch.Idle?
    case StagePasses(stage) => s.launch == Doing(stage) && !stage.Creds? && !stage.Ttl?
    case CredsPass(_, _, _) => s.launch == Doing(Creds)
    case TtlPass(_, _) => s.launch == Doing(Ttl) && s.lease.Some?
    case StageFails => s.launch.Doing?
    case StageCrashes => s.launch == Doing(Decrypt)
    case LaunchFailReports(_) => s.launch.Failing?
    case LaunchFailStops => s.launch.FailSent?
    case Add => s.monitor.Backoff?
    case LoopStarts => s.monitor.Added?
    case WaitReturns => s.monitor.InWait? && s.waitOver
    case TestsFirst => s.monitor.FirstTest?
    case TriesStop => s.monitor.Stopping?
    case TestsSecond => s.monitor.SecondTest?
    case RecheckStep(o) => s.monitor.Rechecking? && CheckCan(s.monitor.check, o)
    case RecheckReturns => s.monitor.Rechecking? && s.monitor.check.Returning?
    case CleansLease => s.monitor.LeaseCleanup?
    case CleansToken => s.monitor.TokenCleanup?
    case ReadsCode => s.monitor.Reading?
    case Reports(_) => s.monitor.Reporting?
    case StopsDriver => s.monitor.Reported?
    case SignsOff => s.monitor.Stopped?
    case Iterates => s.loop.Between?
    case BodyStep(o) => s.loop.Body? && CheckCan(s.loop.check, o)
    case BodyReturns => s.loop.Body? && s.loop.check.Returning?
    case SeesQuit => s.loop.Between? && s.quit
    case KillBegins(k) => s.launch.Launched? && k !in s.kills
    case KillDrained(k, cutShort) =>
      && k in s.kills && s.kills[k].Draining?
      && (cutShort ==> Drains(c) && Freed(DrainOf(k)) in s.log)
    case KillStops(k) => k in s.kills && s.kills[k].AtStop?
    case KillQuits(k) => k in s.kills && s.kills[k].AtQuit?
    case SignalArrives(_) => s.signal.Untouched?
    case WaiterFreed(w) => CanBeFreed(s, w) && (w.DrainOf? ==> Drains(c))
    case SignalExits => s.signal.Exiting?
    case MainExits(stopped) => stopped ==> DriverStopped in s.log
  }

  /** Nothing happens in a process that is gone. */
  predicate Enabled(c: Config, s: State, a: Action) {
    !s.exited && CanDo(c, s, a)
  }

  function CheckEmits(o: Outcome): seq<Effect> {
    match o
    case Gone => [ContainerGone]
    case Inspects(code) => [Inspected(code)]
    case _ => []
  }

  /** What the step adds to the log. */
  function Emits(c: Config, s: State, a: Action): seq<Effect>
    requires Enabled(c, s, a)
  {
    match a
    case LaunchBegins(ok) => if ok then [Sent(Running)] else []
    case CredsPass(id, vars, expiry) => [Leased(Lease(id, c.role, vars, expiry))]
    case TtlPass(id, expiry) => [Renewed(id, expiry)]
    case LaunchFailReports(ok) => if ok then [Sent(Failed)] else []
    case LaunchFailStops => [DriverStopped]
    case Add => [WatcherAdded]
    case WaitReturns => [WaitEnded]
    case TriesStop => [StopTried]
    case RecheckStep(o) => CheckEmits(o)
    case CleansLease => if s.lease.Some? then [LeaseRevoked(s.lease.value.id, s.lease.value.role)] else []
    case CleansToken => if c.privateToken then [TokenRevoked] else []
    case Reports(ok) => if ok then [Sent(StatusFor(s.monitor.code))] else []
    case StopsDriver => [DriverStopped]
    case SignsOff => [WatcherDone]
    case BodyStep(o) => CheckEmits(o)
    case KillDrained(k, cutShort) => [Drained(k, cutShort)]
    case KillStops(k) => [KillStopped(k)]
    case KillQuits(k) => [KillQuit(k)]
    case WaiterFreed(w) => [Freed(w)]
    case _ => []
  }

  /** The stage is done: on to the next, or the monitor is started and the launch is over. */
  function StageDone(c: Config, s: State): State
    requires s.launch.Doing?
  {
    match NextStage(c, s.launch.stage)
    case Some(stage) => s.(launch := Doing(stage))
    case None => s.(launch := Launched, monitor := Backoff)
  }

  /** The state apart from the log. */
  function Moves(c: Config, s: State, a: Action): State
    requires Enabled(c, s, a)
  {
    match a
    case LaunchBegins(ok) => if ok then s.(launch := Doing(Pull)) else s.(exited := true)
    case StagePasses(_) => StageDone(c, s)
    case CredsPass(id, vars, expiry) => StageDone(c, s.(lease := Some(Lease(id, c.role, vars, expiry))))
    case TtlPass(id, expiry) => StageDone(c, s.(lease := Some(s.lease.value.(id := id, expiry := expiry))))
    case StageFails => s.(launch := Failing)
    case StageCrashes => s.(exited := true)
    case LaunchFailReports(ok) => if ok then s.(launch := FailSent) else s.(exited := true)
    case LaunchFailStops => s.(launch := FailStopped)
    case Add => s.(monitor := Added, waitCount := s.waitCount + 1)
    case LoopStarts => s.(monitor := InWait, loop := Between, exitCode := UNKNOWN)
    case WaitReturns => s.(monitor := FirstTest)
    case TestsFirst => s.(monitor := if s.exitCode == UNKNOWN then Stopping else SecondTest)
    case TriesStop => s.(monitor := SecondTest, stopTried := true)
    case TestsSecond => s.(monitor := if s.exitCode == UNKNOWN then Rechecking(Listing) else LeaseCleanup)
    case RecheckStep(o) => s.(monitor := Rechecking(CheckNext(c, s.monitor.check, o)), quit := s.quit || o.Gone?)
    case RecheckReturns => s.(monitor := LeaseCleanup, exitCode := s.monitor.check.code)
    case CleansLease => s.(monitor := TokenCleanup)
    case CleansToken => s.(monitor := Reading)
    case ReadsCode => s.(monitor := Reporting(s.exitCode))
    case Reports(ok) => if ok then s.(monitor := Reported(s.monitor.code)) else s.(exited := true)
    case StopsDriver => s.(monitor := Stopped(s.monitor.code))
    case SignsOff => s.(monitor := Over(s.monitor.code), waitCount := s.waitCount - 1)
    case Iterates => s.(loop := Body(Listing))
    case BodyStep(o) => s.(loop := Body(CheckNext(c, s.loop.check, o)), quit := s.quit || o.Gone?)
    case BodyReturns =>
      s.(exitCode := s.loop.check.code, waitOver := s.waitOver || s.loop.check.err,
         loop := if s.loop.check.err then Ended else Between)
    case SeesQuit => s.(loop := Ended, waitOver := true)
    case KillBegins(k) => s.(kills := s.kills[k := Draining])
    case KillDrained(k, _) => s.(kills := s.kills[k := AtStop])
    case KillStops(k) => s.(kills := s.kills[k := AtQuit])
    case KillQuits(k) => s.(kills := s.kills[k := KillOver], quit := true)
    case SignalArrives(usr1) =>
      if !s.launch.Launched? then s.(signal := Exiting)
      else if usr1 then s.(signal := AtWaitGroup, quit := true)
      else s.(signal := AtWaitGroup, waitOver := true)
    case WaiterFreed(w) => if w.SignalHandler? then s.(signal := Exiting) else s
    case SignalExits => s.(exited := true)
    case MainExits(_) => s.(exited := true)
  }

  function Apply(c: Config, s: State, a: Action): State
    requires Enabled(c, s, a)
  {
    Moves(c, s, a).(log := s.log + Emits(c, s, a))
  }

  /** The state a run leads to, or None when some step of it was not enabled. */
  function Exec(c: Config, tr: seq<Action>): Option<State> {
    if tr == [] then Some(Init())
    else
      match Exec(c, Front(tr))
      case None => None
      case Some(s) => if Enabled(c, s, Last(tr)) then Some(Apply(c, s, Last(tr))) else None
  }

  predicate Valid(c: Config, tr: seq<Action>) {
    Exec(c, tr).Some?
  }

  function After(c: Config, tr: seq<Action>): State
    requires Valid(c, tr)
  {
    Exec(c, tr).value
  }

  lemma Extend(c: Config, tr: seq<Action>, a: Action)
    requires Valid(c, tr) && Enabled(c, After(c, tr), a)
    ensures Valid(c, tr + [a]) && After(c, tr + [a]) == Apply(c, After(c, tr), a)
  {
    assert Front(tr + [a]) == tr;
  }

  /** Each prefix of a run is a run, and each step was enabled where it was taken. */
  lemma {:induction false} StepTaken(c: Config, tr: seq<Action>, i: nat)
    requires Valid(c, tr) && i < |tr|
    ensures Valid(c, tr[..i]) && Enabled(c, After(c, tr[..i]), tr[i])
    ensures Valid(c, tr[..i + 1]) && After(c, tr[..i + 1]) == Apply(c, After(c, tr[..i]), tr[i])
  {
    if i == |tr| - 1 {
      assert tr[..i + 1] == tr && tr[..i] == Front(tr);
    } else {
      StepTaken(c, Front(tr), i);
      assert Front(tr)[..i] == tr[..i] && Front(tr)[..i + 1] == tr[..i + 1];
    }
  }
}
