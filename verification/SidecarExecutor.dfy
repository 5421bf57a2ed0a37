/**
 The executor object: the launch callback, the monitor, and the check that the
 monitor and its loop goroutine share. As with the driver, the fields are those
 the program updates, `history` is the run of TaskLifecycle that the updates
 amount to, and Valid() says that the two agree.
 */
module SidecarExecutor {
  import opened Options
  import opened TaskLifecycle
  import opened LifecycleSafety
  import opened TaskReports
  import EnvDecryption
  import ExitCodes
  import MonitorPaths

  /** How the calls that LaunchTask makes turn out. */
  datatype LaunchReply = LaunchReply(
    runningSent: bool,
    pulled: bool,
    creds: Option<Lease>,
    gotVars: bool,
    renewed: Option<Lease>,
    decrypted: EnvDecryption.Outcome,
    container: Option<string>,
    started: bool,
    failureSent: bool)

  /** How the calls of one checkContainerStatus turn out; `inspected` is None if the inspection fails. */
  datatype CheckReply = CheckReply(listed: bool, running: bool, inspected: Option<int>, unhealthy: bool)

  /** What MonitorTask cannot decide for itself. */
  datatype Environment = Environment(
    others: nat -> seq<Action>,
    recheck: CheckReply,
    statusSent: bool)

  /** StillWaiting: the wait was not over when the run stopped being watched. */
  datatype MonitorResult = StillWaiting | Panicked | Completed

  /** The lease after a launch: as granted, with ID and expiry of the renewal if a TTL is set. */
  function LeaseInForce(c: Config, r: LaunchReply): Option<Lease> {
    match r.creds
    case None => None
    case Some(granted) =>
      if !c.hasTtl then Some(granted.(role := c.role))
      else if r.renewed.None? then None
      else Some(granted.(role := c.role, id := r.renewed.value.id, expiry := r.renewed.value.expiry))
  }

  /** Steps of the loop goroutine, the kills and the signal handler, short of the end of the process. */
  predicate Foreign(a: Action) {
    match a
    case Iterates | BodyStep(_) | BodyReturns | SeesQuit => true
    case KillBegins(_) | KillDrained(_, _) | KillStops(_) | KillQuits(_) => true
    case SignalArrives(_) | WaiterFreed(_) => true
    case _ => false
  }

  ghost predicate MonitorUndisturbed(s: State, t: State) {
    && t.launch == s.launch && t.monitor == s.monitor && t.lease == s.lease && t.exited == s.exited
    && t.stopTried == s.stopTried && (s.quit ==> t.quit)
  }

  /** The run `tr`, then those of `steps` that the others may take, and can when their turn comes. */
  ghost function Joined(c: Config, tr: seq<Action>, steps: seq<Action>): seq<Action> {
    if steps == [] then tr
    else
      var before, a := Joined(c, tr, Front(steps)), Last(steps);
      if Foreign(a) && TaskLifecycle.Valid(c, before) && Enabled(c, After(c, before), a) then before + [a] else before
  }

  lemma ForeignStep(c: Config, s: State, a: Action)
    requires Foreign(a) && Enabled(c, s, a)
    ensures MonitorUndisturbed(s, Apply(c, s, a))
  {
  }

  /** Where a step of the monitor that changes no field leads. */
  function MonitorAfter(s: State, a: Action): Monitor {
    match a
    case WaitReturns => FirstTest
    case TestsFirst => if s.exitCode == UNKNOWN then Stopping else SecondTest
    case TriesStop => SecondTest
    case TestsSecond => if s.exitCode == UNKNOWN then Rechecking(Listing) else LeaseCleanup
    case CleansLease => TokenCleanup
    case CleansToken => Reading
    case ReadsCode => Reporting(s.exitCode)
    case StopsDriver => if s.monitor.Reported? then Stopped(s.monitor.code) else s.monitor
    case _ => s.monitor
  }

  /**
   All of MonitoredTask has been shown, in that order, for this exit code; the code
   was inspected or says that none is known, and it is that of the last check to
   return before it was read. The monitor stopped the container and checked it again
   exactly if it had to.
   */
  ghost predicate AllIsShown(c: Config, tr: seq<Action>, code: int)
    requires TaskLifecycle.Valid(c, tr)
  {
    var s := After(c, tr);
    && Outline(s.log) == MonitoredTask(c, s.lease, s.stopTried, StatusFor(code))
    && (code == UNKNOWN || Inspected(code) in s.log)
    && (exists i: nat :: ExitCodes.ReadAt(tr, i, code))
    && (s.stopTried <==> MonitorPaths.FoundNoneFirst(tr))
    && (RecheckReturns in tr <==> MonitorPaths.FoundNoneAgain(tr))
  }

  lemma AllShown(c: Config, tr: seq<Action>, code: int)
    requires TaskLifecycle.Valid(c, tr) && After(c, tr).monitor == Over(code)
    ensures AllIsShown(c, tr, code)
  {
    StoryHolds(c, tr);
    TruthHolds(c, tr);
    ExitCodes.ReadIsLastReturned(c, tr, code);
    MonitorPaths.MakesSureExactlyIf(c, tr);
  }

  lemma ReportShown(c: Config, tr: seq<Action>, code: int)
    requires TaskLifecycle.Valid(c, tr) && After(c, tr).monitor == Stopped(code)
    ensures Pick(After(c, tr).log, IsReport) == [Sent(Running), Sent(StatusFor(code)), DriverStopped]
  {
    ReportsHold(c, tr);
    StoryHolds(c, tr);
  }

  lemma LaunchShown(c: Config, tr: seq<Action>)
    requires TaskLifecycle.Valid(c, tr)
    requires After(c, tr).launch.Doing? || (After(c, tr).launch.Launched? && After(c, tr).monitor.Backoff?)
    ensures Outline(After(c, tr).log) == [Sent(Running)]
  {
    StoryHolds(c, tr);
  }

  /** Steps of the monitor that look at nothing, with the places before and after them. */
  predicate Plain(a: Action, before: Monitor, after: Monitor) {
    match a
    case TriesStop => before.Stopping? && after.SecondTest?
    case CleansLease => before.LeaseCleanup? && after.TokenCleanup?
    case CleansToken => before.TokenCleanup? && after.Reading?
    case _ => false
  }

  /** Where a test of the exit code leads, by whether none was known. */
  function Tested(a: Action, unknown: bool): Monitor {
    if a.TestsFirst? then if unknown then Stopping else SecondTest
    else if unknown then Rechecking(Listing) else LeaseCleanup
  }

  /** A check that turns out like this inspects no exit code. */
  predicate FindsNone(r: CheckReply) {
    r.listed && !r.running ==> r.inspected in {None, Some(UNKNOWN)}
  }

  /** Nobody else moves. */
  ghost predicate Quiet(env: Environment) {
    forall n :: env.others(n) == []
  }

  class SidecarExecutor {
    const cfg: Config
    var containerID: string
    var awsCredsLease: Option<Lease>
    var looper: bool        // watchLooper is set
    var looperQuit: bool    // and was told to quit
    var waitOver: bool      // and its Wait may return: the loop has ended, or Done was called
    var watcherWg: int
    var exitCode: int       // the variable that monitorTask shares with its loop goroutine
    var panicked: bool
    var history: seq<Action>

    ghost predicate IsState(s: State)
      reads this
    {
      && awsCredsLease == s.lease && looper == s.launch.Launched? && looperQuit == s.quit
      && waitOver == s.waitOver
      && watcherWg == s.waitCount && exitCode == s.exitCode && panicked == s.exited
    }

    ghost predicate Valid()
      reads this
    {
      TaskLifecycle.Valid(cfg, history) && IsState(After(cfg, history))
    }

    function Now(): State
      requires Valid()
      reads this
    {
      After(cfg, history)
    }

    constructor (cfg: Config)
      ensures Valid() && history == [] && this.cfg == cfg
    {
      this.cfg := cfg;
      containerID, awsCredsLease := "", None;
      looper, looperQuit, waitOver := false, false, false;
      watcherWg, exitCode, panicked := 0, UNKNOWN, false;
      history := [];
    }

    /** A step after which no field is different. */
    method MoveOn(a: Action)
      requires Valid() && Enabled(cfg, Now(), a)
      requires IsState(Apply(cfg, Now(), a))
      modifies this`history
      ensures Valid() && history == old(history) + [a] && Now() == Apply(cfg, old(Now()), a)
    {
      Extend(cfg, history, a);
      history := history + [a];
    }

    /** A step of some other goroutine, whatever fields it changes. */
    method OtherStep(a: Action)
      requires Valid() && Foreign(a) && Enabled(cfg, Now(), a)
      modifies this`looperQuit, this`waitOver, this`watcherWg, this`exitCode, this`history
      ensures Valid() && history == old(history) + [a] && MonitorUndisturbed(old(Now()), Now())
    {
      var s := Apply(cfg, After(cfg, history), a);
      Extend(cfg, history, a);
      ForeignStep(cfg, After(cfg, history), a);
      looperQuit, waitOver, watcherWg, exitCode := s.quit, s.waitOver, s.waitCount, s.exitCode;
      history := history + [a];
    }

    /** The other goroutines take those of the given steps that they can. */
    method Interfere(steps: seq<Action>)
      requires Valid()
      modifies this`looperQuit, this`waitOver, this`watcherWg, this`exitCode, this`history
      ensures Valid() && old(history) <= history && MonitorUndisturbed(old(Now()), Now())
      ensures history == Joined(cfg, old(history), steps)
    {
      for i := 0 to |steps|
        invariant Valid() && old(history) <= history && MonitorUndisturbed(old(Now()), Now())
        invariant history == Joined(cfg, old(history), steps[..i])
      {
        assert Front(steps[..i + 1]) == steps[..i];
        if Foreign(steps[i]) && Enabled(cfg, After(cfg, history), steps[i]) {
          OtherStep(steps[i]);
        }
      }
      assert steps[..|steps|] == steps;
    }

    // ----- Launching -----

    method TellRunning(steps: seq<Action>, sent: bool)
      requires Valid() && Now().launch.Idle? && !panicked
      modifies this`looperQuit, this`waitOver, this`watcherWg, this`exitCode, this`history, this`panicked
      ensures Valid() && old(history) <= history && panicked == !sent
      ensures sent ==> Now().launch == Doing(Pull)
    {
      Interfere(steps);
      Extend(cfg, history, LaunchBegins(sent));
      history := history + [LaunchBegins(sent)];
      panicked := !sent;
    }

    /** A stage without a result of its own is passed, and is not the last. */
    method PassStage(steps: seq<Action>, stage: Stage)
      requires Valid() && !panicked && Now().launch == Doing(stage) && stage in {Pull, Decrypt, Create}
      modifies this`looperQuit, this`waitOver, this`watcherWg, this`exitCode, this`history
      ensures Valid() && old(history) <= history && Now().launch.Doing?
      ensures Some(Now().launch.stage) == NextStage(cfg, stage)
    {
      Interfere(steps);
      MoveOn(StagePasses(stage));
    }

    method Crash(steps: seq<Action>)
      requires Valid() && Now().launch == Doing(Decrypt) && !panicked
      modifies this`looperQuit, this`waitOver, this`watcherWg, this`exitCode, this`history, this`panicked
      ensures Valid() && old(history) <= history && panicked && Now().launch.Doing?
    {
      Interfere(steps);
      Extend(cfg, history, StageCrashes);
      history := history + [StageCrashes];
      panicked := true;
    }

    method GiveUp(steps: seq<Action>)
      requires Valid() && Now().launch.Doing? && !panicked
      modifies this`looperQuit, this`waitOver, this`watcherWg, this`exitCode, this`history
      ensures Valid() && old(history) <= history && Now().launch.Failing?
    {
      Interfere(steps);
      MoveOn(StageFails);
    }

    method ReportFailure(steps: seq<Action>, sent: bool)
      requires Valid() && Now().launch.Failing? && !panicked
      modifies this`looperQuit, this`waitOver, this`watcherWg, this`exitCode, this`history, this`panicked
      ensures Valid() && old(history) <= history && panicked == !sent
      ensures if sent then Now().launch.FailSent? else Now().launch.Failing?
    {
      Interfere(steps);
      Extend(cfg, history, LaunchFailReports(sent));
      history := history + [LaunchFailReports(sent)];
      panicked := !sent;
    }

    method StopDriver(steps: seq<Action>)
      requires Valid() && Now().launch.FailSent? && !panicked
      modifies this`looperQuit, this`waitOver, this`watcherWg, this`exitCode, this`history
      ensures Valid() && old(history) <= history && Now().launch.FailStopped?
    {
      Interfere(steps);
      MoveOn(LaunchFailStops);
    }

    /** failTask: reports FAILED and stops the driver; a send that fails is a panic. */
    method FailTask(others: nat -> seq<Action>, sent: bool)
      requires Valid() && Now().launch.Doing? && !panicked
      modifies this`looperQuit, this`waitOver, this`watcherWg, this`exitCode, this`history, this`panicked
      ensures Valid() && old(history) <= history && panicked == !sent
      ensures sent ==> Outline(Now().log) == FAILED_LAUNCH
      ensures !sent ==> Outline(Now().log) == [Sent(Running)]
    {
      GiveUp(others(7));
      ReportFailure(others(8), sent);
      if sent {
        StopDriver(others(9));
      }
      StoryHolds(cfg, history);
    }

    /** What the program does once the last stage has passed: the looper is made and the monitor started. */
    method StartMonitor(steps: seq<Action>)
      requires Valid() && Now().launch == Doing(Start) && !panicked
      modifies this`looperQuit, this`waitOver, this`watcherWg, this`exitCode, this`history, this`looper
      ensures Valid() && old(history) <= history && Now().launch.Launched? && Now().monitor.Backoff?
    {
      Interfere(steps);
      Extend(cfg, history, StagePasses(Start));
      history := history + [StagePasses(Start)];
      looper := true;
    }

    /** AddAndMonitorVaultAWSKeys: the lease as Vault grants it. */
    method AddLease(steps: seq<Action>, lease: Lease)
      requires Valid() && Now().launch == Doing(Creds) && !panicked
      modifies this`looperQuit, this`waitOver, this`watcherWg, this`exitCode, this`history, this`awsCredsLease
      ensures Valid() && old(history) <= history
      ensures Now().launch == Doing(if cfg.hasTtl then Ttl else Decrypt)
      ensures awsCredsLease == Some(Lease(lease.id, cfg.role, lease.vars, lease.expiry))
    {
      Interfere(steps);
      Extend(cfg, history, CredsPass(lease.id, lease.vars, lease.expiry));
      history := history + [CredsPass(lease.id, lease.vars, lease.expiry)];
      awsCredsLease := Some(Lease(lease.id, cfg.role, lease.vars, lease.expiry));
    }

    /** SetVaultAWSTTL: its renewal for a custom TTL. */
    method RenewLease(steps: seq<Action>, renewal: Lease)
      requires Valid() && Now().launch == Doing(Ttl) && !panicked
      requires awsCredsLease.Some?
      modifies this`looperQuit, this`waitOver, this`watcherWg, this`exitCode, this`history, this`awsCredsLease
      ensures Valid() && old(history) <= history && Now().launch == Doing(Decrypt)
      ensures awsCredsLease == Some(old(awsCredsLease).value.(id := renewal.id, expiry := renewal.expiry))
    {
      Interfere(steps);
      Extend(cfg, history, TtlPass(renewal.id, renewal.expiry));
      history := history + [TtlPass(renewal.id, renewal.expiry)];
      awsCredsLease := Some(awsCredsLease.value.(id := renewal.id, expiry := renewal.expiry));
    }

    /** The lease, with its renewal if a TTL is set. */
    method SetUpLease(others: nat -> seq<Action>, r: LaunchReply) returns (ok: bool)
      requires Valid() && Now().launch == Doing(Creds) && !panicked
      modifies this`looperQuit, this`waitOver, this`watcherWg, this`exitCode, this`history, this`awsCredsLease
      ensures Valid() && old(history) <= history
      ensures ok <==> r.creds.Some? && r.gotVars && (cfg.hasTtl ==> r.renewed.Some?)
      ensures if ok then Now().launch == Doing(Decrypt) else Now().launch.Doing?
      ensures ok ==> awsCredsLease == LeaseInForce(cfg, r)
    {
      if r.creds.None? || !r.gotVars {
        return false;
      }
      AddLease(others(2), r.creds.value);
      if cfg.hasTtl {
        if r.renewed.None? {
          return false;
        }
        RenewLease(others(3), r.renewed.value);
      }
      return true;
    }

    /** CreateContainer and StartContainer. */
    method BringUp(others: nat -> seq<Action>, r: LaunchReply) returns (ok: bool)
      requires Valid() && Now().launch == Doing(Create) && !panicked
      modifies this`looperQuit, this`waitOver, this`watcherWg, this`exitCode, this`history,
        this`containerID, this`looper
      ensures Valid() && old(history) <= history
      ensures ok <==> r.container.Some? && r.started
      ensures ok ==> Now().launch.Launched? && Now().monitor.Backoff? && Some(containerID) == r.container
      ensures !ok ==> Now().launch.Doing?
    {
      if r.container.None? {
        return false;
      }
      PassStage(others(5), Create);
      containerID := r.container.value;
      if !r.started {
        return false;
      }
      StartMonitor(others(6));
      return true;
    }

    /** The environment is decrypted, and the container brought up with it. */
    method SetUpContainer(others: nat -> seq<Action>, r: LaunchReply) returns (ok: bool)
      requires Valid() && Now().launch == Doing(Decrypt) && !panicked
      modifies this`looperQuit, this`waitOver, this`watcherWg, this`exitCode, this`history,
        this`containerID, this`looper, this`panicked
      ensures Valid() && old(history) <= history
      ensures ok <==> r.decrypted.Decrypted? && r.container.Some? && r.started
      ensures ok ==> Now().launch.Launched? && Now().monitor.Backoff? && Some(containerID) == r.container
      ensures !ok ==> Now().launch.Doing?
      ensures panicked <==> r.decrypted.Crashed?
    {
      if r.decrypted.Crashed? {
        Crash(others(4));
        return false;
      }
      if r.decrypted.LookupFailed? {
        return false;
      }
      PassStage(others(4), Decrypt);
      ok := BringUp(others, r);
    }

    /** What a launch does once the image is there. */
    method SetUp(others: nat -> seq<Action>, r: LaunchReply) returns (ok: bool)
      requires Valid() && Now().launch == Doing(Pull) && !panicked
      modifies this`looperQuit, this`waitOver, this`watcherWg, this`exitCode, this`history,
        this`awsCredsLease, this`containerID, this`looper, this`panicked
      ensures Valid() && old(history) <= history
      ensures ok <==> && (cfg.role != "" ==> r.creds.Some? && r.gotVars && (cfg.hasTtl ==> r.renewed.Some?))
                      && r.decrypted.Decrypted? && r.container.Some? && r.started
      ensures ok ==> Now().launch.Launched? && Now().monitor.Backoff? && Some(containerID) == r.container
      ensures ok && cfg.role != "" ==> awsCredsLease == LeaseInForce(cfg, r)
      ensures !ok ==> Now().launch.Doing?
      ensures panicked <==> && (cfg.role != "" ==> r.creds.Some? && r.gotVars && (cfg.hasTtl ==> r.renewed.Some?))
                            && r.decrypted.Crashed?
    {
      PassStage(others(1), Pull);
      ok := true;
      if cfg.role != "" {
        ok := SetUpLease(others, r);
      }
      if ok {
        ok := SetUpContainer(others, r);
      }
    }

    /**
     The launch callback, with other goroutines moving between its steps. The
     monitor is started exactly if no stage fails; if one does, FAILED is reported
     and the driver stopped, unless the launch panics.
     */
    method LaunchTask(others: nat -> seq<Action>, r: LaunchReply) returns (launched: bool)
      requires Valid() && Now().launch.Idle? && !panicked
      modifies this
      ensures Valid() && old(history) <= history
      ensures launched <==>
                && r.runningSent && r.pulled
                && (cfg.role != "" ==> r.creds.Some? && r.gotVars && (cfg.hasTtl ==> r.renewed.Some?))
                && r.decrypted.Decrypted? && r.container.Some? && r.started
      ensures launched ==> Now().monitor.Backoff? && Some(containerID) == r.container
      ensures launched ==> Outline(Now().log) == [Sent(Running)]
      ensures launched && cfg.role != "" ==> awsCredsLease == LeaseInForce(cfg, r)
      ensures !launched && !panicked ==> Outline(Now().log) == FAILED_LAUNCH
      ensures r.runningSent && panicked ==> Outline(Now().log) == [Sent(Running)]
      ensures panicked <==>
                && !launched
                && (|| !r.runningSent || !r.failureSent
                    || (&& r.pulled && r.decrypted.Crashed?
                        && (cfg.role != "" ==> r.creds.Some? && r.gotVars && (cfg.hasTtl ==> r.renewed.Some?))))
    {
      TellRunning(others(0), r.runningSent);
      if !r.runningSent {
        return false;
      }
      launched := false;
      if r.pulled {
        launched := SetUp(others, r);
      }
      if launched || panicked {
        LaunchShown(cfg, history);
      } else {
        FailTask(others, r.failureSent);
      }
    }

    // ----- Monitoring -----

    /** One call of the monitor's check and its outcome, after the others moved. */
    method Call(steps: seq<Action>, outcome: Outcome)
      requires Valid() && !panicked && Now().monitor.Rechecking? && CheckCan(Now().monitor.check, outcome)
      modifies this
      ensures Valid() && old(history) <= history && !panicked
      ensures Now().monitor == Rechecking(CheckNext(cfg, old(Now()).monitor.check, outcome))
      ensures old(looperQuit) || outcome.Gone? ==> looperQuit
    {
      Interfere(steps);
      Extend(cfg, history, RecheckStep(outcome));
      history := history + [RecheckStep(outcome)];
      looperQuit := looperQuit || outcome.Gone?;
    }

    /** checkContainerStatus, as the monitor runs it after its wait. */
    method CheckContainerStatus(r: CheckReply, others: nat -> seq<Action>) returns (code: int, err: bool)
      requires Valid() && Now().monitor == Rechecking(Listing) && !panicked
      modifies this
      ensures Valid() && old(history) <= history && !panicked && Now().monitor == Rechecking(Returning(code, err))
      ensures r.listed && !r.running ==> looperQuit
      ensures if r.listed && !r.running && r.inspected.Some? then code == r.inspected.value else code == UNKNOWN
      ensures !err <==> r.listed && if r.running then !(cfg.checkSidecar && r.unhealthy) else r.inspected == Some(0)
    {
      if !r.listed {
        Call(others(3), ListFails);
        return UNKNOWN, true;
      }
      if r.running {
        Call(others(3), Present);
        if cfg.checkSidecar {
          Call(others(4), Polled(r.unhealthy));
        }
        return UNKNOWN, cfg.checkSidecar && r.unhealthy;
      }
      Call(others(3), Gone);
      if r.inspected.None? {
        Call(others(4), InspectFails);
        return UNKNOWN, true;
      }
      Call(others(4), Inspects(r.inspected.value));
      return r.inspected.value, r.inspected.value != 0;
    }

    /** A step of the monitor that changes no field: it only moves on. */
    method Proceed(a: Action)
      requires Valid() && Enabled(cfg, Now(), a)
      requires a.WaitReturns? || a.TestsFirst? || a.TriesStop? || a.TestsSecond? || a.CleansLease? || a.CleansToken?
               || a.ReadsCode? || a.StopsDriver?
      modifies this`history
      ensures Valid() && history == old(history) + [a] && Now().monitor == MonitorAfter(old(Now()), a)
    {
      Extend(cfg, history, a);
      history := history + [a];
    }

    /** The others move, then the monitor does. */
    method Turn(steps: seq<Action>, a: Action, ghost next: Monitor)
      requires Valid() && !panicked && Plain(a, Now().monitor, next)
      modifies this
      ensures Valid() && old(history) <= history && !panicked && Now().monitor == next
      ensures steps == [] ==> exitCode == old(exitCode)
    {
      Interfere(steps);
      Proceed(a);
    }

    /** The others move, then the monitor tests whether an exit code is known. */
    method TestCode(steps: seq<Action>, a: Action) returns (unknown: bool)
      requires Valid() && !panicked
      requires (a.TestsFirst? && Now().monitor.FirstTest?) || (a.TestsSecond? && Now().monitor.SecondTest?)
      modifies this
      ensures Valid() && old(history) <= history && !panicked
      ensures unknown <==> exitCode == UNKNOWN
      ensures Now().monitor == Tested(a, unknown)
    {
      Interfere(steps);
      unknown := exitCode == UNKNOWN;
      Proceed(a);
    }

    method JoinWaitGroup(steps: seq<Action>)
      requires Valid() && Now().monitor.Backoff? && !panicked
      modifies this
      ensures Valid() && old(history) <= history && Now().monitor.Added? && !panicked
    {
      Interfere(steps);
      Extend(cfg, history, Add);
      history := history + [Add];
      watcherWg := watcherWg + 1;
    }

    method StartLoop(steps: seq<Action>)
      requires Valid() && Now().monitor.Added? && !panicked
      modifies this
      ensures Valid() && old(history) <= history && Now().monitor.InWait? && !panicked
    {
      Interfere(steps);
      Extend(cfg, history, LoopStarts);
      history := history + [LoopStarts];
      exitCode := UNKNOWN;
    }

    /** Returns from the wait, if it is over. */
    method TryWait(steps: seq<Action>) returns (over: bool)
      requires Valid() && Now().monitor.InWait? && !panicked
      modifies this`looperQuit, this`waitOver, this`watcherWg, this`exitCode, this`history
      ensures Valid() && old(history) <= history && over == waitOver
      ensures if over then Now().monitor.FirstTest? else Now().monitor.InWait?
    {
      Interfere(steps);
      over := waitOver;
      if over {
        Proceed(WaitReturns);
      }
    }

    /** Joins the WaitGroup, starts the loop and waits, for so many turns, until the loop is over or Done was called. */
    method WatchLoop(env: Environment, patience: nat) returns (over: bool)
      requires Valid() && Now().monitor.Backoff? && !panicked
      modifies this
      ensures Valid() && old(history) <= history && !panicked
      ensures if over then Now().monitor.FirstTest? else Now().monitor.InWait?
      ensures !over ==> patience == 0 || !waitOver
    {
      JoinWaitGroup(env.others(0));
      StartLoop(env.others(1));
      for turn := 0 to patience
        invariant Valid() && old(history) <= history && Now().monitor.InWait? && !panicked
        invariant turn > 0 ==> !waitOver
      {
        over := TryWait(env.others(turn + 2));
        if over {
          return;
        }
      }
      return false;
    }

    /** Checks the container once more, and takes what the check returns for the exit code. */
    method Recheck(env: Environment)
      requires Valid() && Now().monitor == Rechecking(Listing) && !panicked
      modifies this
      ensures Valid() && old(history) <= history && Now().monitor.LeaseCleanup? && !panicked
      ensures exitCode == UNKNOWN ==> FindsNone(env.recheck)
    {
      var code, err := CheckContainerStatus(env.recheck, env.others);
      Interfere(env.others(5));
      Extend(cfg, history, RecheckReturns);
      history := history + [RecheckReturns];
      exitCode := code;
    }

    /** While no exit code is known: stops the container, then checks once more. */
    method MakeSure(env: Environment)
      requires Valid() && Now().monitor.FirstTest? && !panicked
      modifies this
      ensures Valid() && old(history) <= history && Now().monitor.LeaseCleanup? && !panicked
      ensures exitCode == UNKNOWN ==> FindsNone(env.recheck)
    {
      var unknown := TestCode(env.others(0), TestsFirst);
      if unknown {
        Turn(env.others(1), TriesStop, SecondTest);
      }
      unknown := TestCode(env.others(2), TestsSecond);
      if unknown {
        Recheck(env);
      }
    }

    /** maybeCleanupAWSCredsLease, MaybeRevokeToken, and the reading of the exit code. */
    method CleanUp(env: Environment) returns (code: int)
      requires Valid() && Now().monitor.LeaseCleanup? && !panicked
      modifies this
      ensures Valid() && old(history) <= history && Now().monitor == Reporting(code) && !panicked
      ensures Quiet(env) ==> code == old(exitCode)
    {
      Turn(env.others(6), CleansLease, TokenCleanup);
      Turn(env.others(7), CleansToken, Reading);
      code := ReadExitCode(env.others(8));
    }

    method ReadExitCode(steps: seq<Action>) returns (code: int)
      requires Valid() && Now().monitor.Reading? && !panicked
      modifies this`looperQuit, this`waitOver, this`watcherWg, this`exitCode, this`history
      ensures Valid() && old(history) <= history && Now().monitor == Reporting(code)
      ensures steps == [] ==> code == old(exitCode)
    {
      Interfere(steps);
      code := exitCode;
      Proceed(ReadsCode);
    }

    method Report(steps: seq<Action>, code: int, sent: bool)
      requires Valid() && Now().monitor == Reporting(code) && !panicked
      modifies this`looperQuit, this`waitOver, this`watcherWg, this`exitCode, this`history, this`panicked
      ensures Valid() && old(history) <= history && panicked == !sent
      ensures sent ==> Now().monitor == Reported(code)
    {
      Interfere(steps);
      Extend(cfg, history, Reports(sent));
      history := history + [Reports(sent)];
      panicked := !sent;
    }

    /** handleContainerExit: maps the exit code to a status, reports it and stops the driver. */
    method HandleContainerExit(env: Environment, code: int) returns (status: Status)
      requires Valid() && Now().monitor == Reporting(code) && !panicked
      modifies this`looperQuit, this`waitOver, this`watcherWg, this`exitCode, this`history, this`panicked
      ensures Valid() && old(history) <= history && panicked == !env.statusSent
      ensures !panicked ==> Now().monitor == Stopped(code)
      ensures status == StatusFor(code)
      ensures (status == Finished <==> code == 0) && (status == Killed <==> 129 <= code <= 165) && status != Running
      ensures !panicked ==> Pick(Now().log, IsReport) == [Sent(Running), Sent(status), DriverStopped]
    {
      if code > 128 && code <= 165 {
        status := Killed;
      } else if code > 0 {
        status := Failed;
      } else if code < 0 {
        status := Failed;
      } else {
        status := Finished;
      }
      Report(env.others(9), code, env.statusSent);
      if env.statusSent {
        StopReportedDriver(env.others(10), code);
        ReportShown(cfg, history, code);
      }
    }

    method StopReportedDriver(steps: seq<Action>, code: int)
      requires Valid() && Now().monitor == Reported(code) && !panicked
      modifies this`looperQuit, this`waitOver, this`watcherWg, this`exitCode, this`history
      ensures Valid() && old(history) <= history && Now().monitor == Stopped(code)
    {
      Interfere(steps);
      Proceed(StopsDriver);
    }

    /** Done: releases whoever waits for the watcher. */
    method SignOff(steps: seq<Action>, code: int)
      requires Valid() && Now().monitor == Stopped(code) && !panicked
      modifies this`looperQuit, this`waitOver, this`watcherWg, this`exitCode, this`history
      ensures Valid() && old(history) <= history && Now().monitor == Over(code) && watcherWg == 0
    {
      Interfere(steps);
      CountHolds(cfg, history);
      Extend(cfg, history, SignsOff);
      history := history + [SignsOff];
      watcherWg := watcherWg - 1;
    }

    /**
     The monitor, watched for `patience` turns of its wait. When it completes, all is
     shown and the WaitGroup released.
     */
    method MonitorTask(watch: Environment, ending: Environment, patience: nat)
      returns (result: MonitorResult, code: int)
      requires Valid() && Now().monitor.Backoff? && !panicked
      modifies this
      ensures Valid() && old(history) <= history
      ensures result.StillWaiting? ==> Now().monitor.InWait? && (patience == 0 || !waitOver)
      ensures !result.StillWaiting? ==> (result.Panicked? <==> !ending.statusSent)
      ensures !result.StillWaiting? && Quiet(ending) && code == UNKNOWN ==> FindsNone(ending.recheck)
      ensures result.Panicked? <==> panicked
      ensures result.Completed? ==> watcherWg == 0 && AllIsShown(cfg, history, code)
    {
      code := UNKNOWN;
      var over := WatchLoop(watch, patience);
      if !over {
        return StillWaiting, code;
      }
      code := Conclude(ending);
      return if panicked then Panicked else Completed, code;
    }

    /** All that follows the wait. */
    method Conclude(env: Environment) returns (code: int)
      requires Valid() && Now().monitor.FirstTest? && !panicked
      modifies this
      ensures Valid() && old(history) <= history && panicked == !env.statusSent
      ensures !panicked ==> watcherWg == 0 && AllIsShown(cfg, history, code)
      ensures Quiet(env) && code == UNKNOWN ==> FindsNone(env.recheck)
    {
      MakeSure(env);
      code := CleanUp(env);
      Finish(env, code);
    }

    /** The report for the exit code that was read, and Done. */
    method Finish(env: Environment, code: int)
      requires Valid() && Now().monitor == Reporting(code) && !panicked
      modifies this
      ensures Valid() && old(history) <= history && panicked == !env.statusSent
      ensures !panicked ==> watcherWg == 0 && AllIsShown(cfg, history, code)
    {
      var status := HandleContainerExit(env, code);
      if !panicked {
        SignOff(env.others(11), code);
        AllShown(cfg, history, code);
      }
    }
  }
}
