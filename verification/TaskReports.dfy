/**
 What Mesos is told about a task, over every interleaving of the launch, the
 monitor, its loop goroutine, kills and signals: one launch, no SHUTDOWN event,
 kills only after a launch that succeeded.
 */
module TaskReports {
  import opened Options
  import opened TaskLifecycle
  import opened LifecycleSafety

  /** The terminal status that is, or could still be, sent. */
  function Conclusion(s: State): Status {
    if !s.launch.Launched? then Failed
    else
      match s.monitor
      case Reported(code) => StatusFor(code)
      case Stopped(code) => StatusFor(code)
      case Over(code) => StatusFor(code)
      case _ => Failed
  }

  /**
   One terminal status. What is reported is RUNNING, then one terminal status,
   and the driver is stopped once, after that.
   */
  lemma OneTerminalStatus(c: Config, tr: seq<Action>)
    requires Valid(c, tr)
    ensures exists t: Status ::
              t != Running && Pick(After(c, tr).log, IsReport) <= [Sent(Running), Sent(t), DriverStopped]
  {
    ReportsHold(c, tr);
    assert ToldMesos(After(c, tr)) <= [Sent(Running), Sent(Conclusion(After(c, tr))), DriverStopped];
  }

  /** A terminal status was sent. */
  ghost predicate Concluded(log: seq<Effect>) {
    exists t: Status :: t != Running && Sent(t) in log
  }

  /** Where the driver was stopped, so that main is about to end the process, a terminal status was sent before. */
  lemma StoppedIsConcluded(c: Config, tr: seq<Action>)
    requires Valid(c, tr) && DriverStopped in After(c, tr).log
    ensures Concluded(After(c, tr).log)
  {
    ReportsHold(c, tr);
    var s := After(c, tr);
    PickKeeps(s.log, IsReport, DriverStopped);
    assert ToldMesos(s)[1].Sent?;
    PickKeeps(s.log, IsReport, ToldMesos(s)[1]);
    assert ToldMesos(s)[1] == Sent(Conclusion(s));
  }

  /** The monitor has reported, with this exit code. */
  predicate ReportedCode(s: State, code: int) {
    s.launch.Launched? && s.monitor in {Reported(code), Stopped(code), Over(code)}
  }

  /** A terminal status is sent by a failed launch, or by the monitor for the exit code it read. */
  lemma WhoConcludes(c: Config, tr: seq<Action>, t: Status)
    requires Valid(c, tr) && t != Running
    ensures var s := After(c, tr);
            Sent(t) in s.log <==> (t == Failed && (s.launch.FailSent? || s.launch.FailStopped?))
                                  || exists code :: ReportedCode(s, code) && StatusFor(code) == t
  {
    ReportsHold(c, tr);
    var s := After(c, tr);
    PickKeeps(s.log, IsReport, Sent(t));
    if Sent(t) in ToldMesos(s) && s.launch.Launched? {
      assert s.monitor.Reported? || s.monitor.Stopped? || s.monitor.Over?;
      assert ReportedCode(s, s.monitor.code) && StatusFor(s.monitor.code) == t;
    }
  }

  /**
   The terminal status is truthful: FINISHED and KILLED rest on an exit code that
   was inspected, for a container seen to be gone; if no exit code ever was, the
   task ends FAILED.
   */
  lemma TruthfulStatus(c: Config, tr: seq<Action>, t: Status)
    requires Valid(c, tr) && t != Running && Sent(t) in After(c, tr).log
    ensures var log := After(c, tr).log;
            && (t == Finished ==> Inspected(0) in log)
            && (t == Killed ==> exists code :: 129 <= code <= 165 && Inspected(code) in log)
            && ((forall code :: Inspected(code) !in log) ==> t == Failed)
            && (forall code :: Inspected(code) in log ==> ContainerGone in log)
  {
    WhoConcludes(c, tr, t);
    TruthHolds(c, tr);
    var s := After(c, tr);
    if code :| ReportedCode(s, code) && StatusFor(code) == t {
      assert Backed(Seen(s.log), code);
    }
  }

  /**
   No silent abandonment: when the monitor has reported, some check saw the
   container gone, or the monitor tried to stop it, after its wait had ended.
   */
  lemma NoSilentAbandonment(c: Config, tr: seq<Action>, code: int)
    requires Valid(c, tr) && ReportedCode(After(c, tr), code)
    ensures var log := After(c, tr).log;
            ContainerGone in log || [Sent(Running), WatcherAdded, WaitEnded, StopTried] <= Outline(log)
  {
    TruthHolds(c, tr);
    StoryHolds(c, tr);
    var s := After(c, tr);
    if ContainerGone !in s.log {
      assert s.stopTried;
      BeforeReportBegins(c, s.lease, true);
    }
  }

  lemma BeforeReportBegins(c: Config, lease: Option<Lease>, tried: bool)
    ensures With([Sent(Running), WatcherAdded, WaitEnded], tried, StopTried) <= BeforeReport(c, lease, tried)
  {
    var begun := With([Sent(Running), WatcherAdded, WaitEnded], tried, StopTried);
    assert begun <= WithLease(begun, lease);
  }

  /**
   The whole order, for a task that was launched: what is shown is a prefix of
   RUNNING, Add, end of Wait, the stop attempt if one is made, one attempt to
   revoke the lease if there is one, one to revoke the private token if there is
   one, the terminal status, the driver's stop, Done.
   */
  lemma MonitorOrder(c: Config, tr: seq<Action>)
    requires Valid(c, tr) && After(c, tr).launch.Launched?
    ensures var s := After(c, tr);
            exists t: Status :: t != Running && Outline(s.log) <= MonitoredTask(c, s.lease, s.stopTried, t)
  {
    StoryHolds(c, tr);
    var s := After(c, tr);
    BeforeReportBegins(c, s.lease, s.stopTried);
    assert Outline(s.log) <= MonitoredTask(c, s.lease, s.stopTried, Conclusion(s));
  }

  /** Hence all cleanup precedes the report, and concerns the lease as last renewed, for the original role. */
  lemma CleanupPrecedesReport(c: Config, tr: seq<Action>, code: int)
    requires Valid(c, tr) && ReportedCode(After(c, tr), code)
    ensures var s := After(c, tr);
            && BeforeReport(c, s.lease, s.stopTried) + [Sent(StatusFor(code))] <= Outline(s.log)
            && exists renewed :: LeaseIs(c, s.log, s.lease, renewed)
  {
    StoryHolds(c, tr);
    CleanupShown(c, After(c, tr), code);
    LeaseHolds(c, tr);
  }

  lemma CleanupShown(c: Config, s: State, code: int)
    requires StoryInv(c, s) && ReportedCode(s, code)
    ensures BeforeReport(c, s.lease, s.stopTried) + [Sent(StatusFor(code))] <= Outline(s.log)
  {
  }

  /** A launch that fails revokes nothing: a lease it got is left to expire in Vault. */
  lemma FailedLaunchRevokesNothing(c: Config, tr: seq<Action>, id: string, role: string)
    requires Valid(c, tr) && !After(c, tr).launch.Launched?
    ensures LeaseRevoked(id, role) !in After(c, tr).log && TokenRevoked !in After(c, tr).log
  {
    StoryHolds(c, tr);
    PickKeeps(After(c, tr).log, Ordered, LeaseRevoked(id, role));
    PickKeeps(After(c, tr).log, Ordered, TokenRevoked);
  }

  // ----- What a released waiter knows -----

  /**
   The WaitGroup counts the monitor, at most once. Whoever it releases, a drain
   or the signal handler, knows that the task is concluded and the driver
   stopped exactly if the monitor had done its Add.
   */
  lemma ReleasedKnows(c: Config, tr: seq<Action>, w: Waiter)
    requires Valid(c, tr)
    ensures var s := After(c, tr);
            && 0 <= s.waitCount <= 1
            && (Enabled(c, s, WaiterFreed(w))
                ==> (WatcherAdded in s.log <==> Concluded(s.log))
                    && (WatcherAdded in s.log <==> DriverStopped in s.log))
  {
    CountHolds(c, tr);
    StoryHolds(c, tr);
    ReportsHold(c, tr);
    var s := After(c, tr);
    if Enabled(c, s, WaiterFreed(w)) {
      AddedOrNot(c, s);
      StoppedOrNot(s);
      ConcludedOrNot(s);
    }
  }

  /** Once there is a monitor, a count of zero means that it has not begun, or is over: whether it has done Add, */
  lemma AddedOrNot(c: Config, s: State)
    requires CountInv(s) && StoryInv(c, s) && s.launch.Launched? && s.waitCount == 0
    ensures WatcherAdded in s.log <==> s.monitor.Over?
  {
    PickKeeps(s.log, Ordered, WatcherAdded);
    if s.monitor.Over? {
      BeforeReportBegins(c, s.lease, s.stopTried);
      assert MonitoredTask(c, s.lease, s.stopTried, StatusFor(s.monitor.code))[1] == WatcherAdded;
    }
  }

  /** whether the driver was stopped, */
  lemma StoppedOrNot(s: State)
    requires CountInv(s) && ReportInv(s) && s.launch.Launched? && s.waitCount == 0
    ensures DriverStopped in s.log <==> s.monitor.Over?
  {
    PickKeeps(s.log, IsReport, DriverStopped);
  }

  /** and whether a terminal status was sent. */
  lemma ConcludedOrNot(s: State)
    requires CountInv(s) && ReportInv(s) && s.launch.Launched? && s.waitCount == 0
    ensures Concluded(s.log) <==> s.monitor.Over?
  {
    if s.monitor.Over? {
      PickKeeps(s.log, IsReport, Sent(StatusFor(s.monitor.code)));
    } else {
      forall t: Status | t != Running ensures Sent(t) !in s.log {
        PickKeeps(s.log, IsReport, Sent(t));
      }
    }
  }
}
