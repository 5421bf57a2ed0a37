/**
 Runs of TaskLifecycle that show how far the guarantees of TaskReports reach.
 EarlyReleases and ExitCodes say when, exactly, they reach that far.
 */
module TaskWitnesses {
  import opened Options
  import opened TaskLifecycle

  lemma Do(c: Config, tr: seq<Action>, a: Action) returns (next: seq<Action>)
    requires Valid(c, tr) && Enabled(c, After(c, tr), a)
    ensures Valid(c, next) && After(c, next) == Apply(c, After(c, tr), a)
  {
    Extend(c, tr, a);
    next := tr + [a];
  }

  /** A task without an AWS role, just launched. */
  const JUST_LAUNCHED := Init().(launch := Launched, monitor := Backoff, log := [Sent(Running)])

  lemma LaunchSucceeds(c: Config) returns (tr: seq<Action>)
    requires c.role == ""
    ensures Valid(c, tr) && After(c, tr) == JUST_LAUNCHED
  {
    tr := Do(c, [], LaunchBegins(true));
    tr := Do(c, tr, StagePasses(Pull));
    tr := Do(c, tr, StagePasses(Decrypt));
    tr := Do(c, tr, StagePasses(Create));
    tr := Do(c, tr, StagePasses(Start));
  }

  /**
   The monitor does its Add only after the Sidecar backoff. A SIGUSR1 before that
   finds the count at zero: the process exits with the container started and
   only RUNNING reported.
   */
  lemma SignalInBackoffReportsNothing(c: Config)
    requires c.role == ""
    ensures exists tr :: Valid(c, tr) && After(c, tr).exited && After(c, tr).monitor.Backoff?
                         && After(c, tr).log == [Sent(Running), Freed(SignalHandler)]
  {
    var tr := LaunchSucceeds(c);
    tr := Do(c, tr, SignalArrives(true));
    tr := Do(c, tr, WaiterFreed(SignalHandler));
    tr := Do(c, tr, SignalExits);
    assert After(c, tr).log == [Sent(Running), Freed(SignalHandler)];
  }

  /** A signal during the image pull finds no looper, and does not even wait. */
  lemma SignalInPullReportsNothing(c: Config, usr1: bool)
    ensures exists tr :: Valid(c, tr) && After(c, tr).exited && After(c, tr).launch == Doing(Pull)
                         && After(c, tr).log == [Sent(Running)]
  {
    var tr := Do(c, [], LaunchBegins(true));
    tr := Do(c, tr, SignalArrives(usr1));
    tr := Do(c, tr, SignalExits);
    assert After(c, tr).log == [Sent(Running)];
  }

  /** An environment entry without "=" is a panic in the launch. */
  lemma BadEntryReportsNothing(c: Config)
    requires c.role == ""
    ensures exists tr :: Valid(c, tr) && After(c, tr).exited && After(c, tr).launch == Doing(Decrypt)
                         && After(c, tr).log == [Sent(Running)]
  {
    var tr := Do(c, [], LaunchBegins(true));
    tr := Do(c, tr, StagePasses(Pull));
    tr := Do(c, tr, StageCrashes);
    assert After(c, tr).log == [Sent(Running)];
  }

  /**
   A drain that begins in the backoff is cut short the same way, and the container
   is stopped without the draining time, before the watch of it has begun.
   */
  lemma KillInBackoffDoesNotDrain(c: Config, k: nat)
    requires c.role == "" && Drains(c)
    ensures exists tr :: Valid(c, tr) && After(c, tr).monitor.Backoff?
                         && After(c, tr).log == [Sent(Running), Freed(DrainOf(k)), Drained(k, true), KillStopped(k)]
  {
    var tr := LaunchSucceeds(c);
    tr := Do(c, tr, KillBegins(k));
    tr := Do(c, tr, WaiterFreed(DrainOf(k)));
    tr := Do(c, tr, KillDrained(k, true));
    tr := Do(c, tr, KillStops(k));
    assert After(c, tr).log == [Sent(Running), Freed(DrainOf(k)), Drained(k, true), KillStopped(k)];
  }

  /** When Run gives up, or ends for want of checkpointing, the process leaves the container behind. */
  lemma RunReturnsUnstopped(c: Config)
    requires c.role == ""
    ensures exists tr :: Valid(c, tr) && After(c, tr).exited && After(c, tr).monitor.InWait?
                         && After(c, tr).log == [Sent(Running), WatcherAdded]
  {
    var tr := LoopChecks(c);
    tr := Do(c, tr, MainExits(false));
    assert After(c, tr).log == [Sent(Running), WatcherAdded];
  }

  /** The loop goroutine has just begun a check. */
  lemma LoopChecks(c: Config) returns (tr: seq<Action>)
    requires c.role == ""
    ensures Valid(c, tr)
    ensures After(c, tr)
            == JUST_LAUNCHED.(
                 monitor := InWait, loop := Body(Listing), waitCount := 1, log := [Sent(Running), WatcherAdded])
  {
    tr := LaunchSucceeds(c);
    tr := Do(c, tr, Add);
    tr := Do(c, tr, LoopStarts);
    tr := Do(c, tr, Iterates);
    assert After(c, tr).log == [Sent(Running), WatcherAdded];
  }

  /** It has inspected exit code 0 but not written it when SIGTERM ends the monitor's wait. */
  lemma InspectedButNotWritten(c: Config) returns (tr: seq<Action>)
    requires c.role == ""
    ensures Valid(c, tr)
    ensures var s := After(c, tr);
            && s.monitor.FirstTest? && s.loop == Body(Returning(0, false)) && s.exitCode == UNKNOWN
            && s.lease.None? && !s.exited && Inspected(0) in s.log
  {
    tr := LoopChecks(c);
    tr := Do(c, tr, BodyStep(Gone));
    tr := Do(c, tr, BodyStep(Inspects(0)));
    tr := Do(c, tr, SignalArrives(false));
    tr := Do(c, tr, WaitReturns);
  }

  /** The monitor's own second check fails, after the loop wrote the 0. */
  lemma ZeroIsOverwritten(c: Config) returns (tr: seq<Action>)
    requires c.role == ""
    ensures Valid(c, tr)
    ensures var s := After(c, tr);
            s.monitor.LeaseCleanup? && s.exitCode == UNKNOWN && !s.exited && Inspected(0) in s.log
  {
    tr := InspectedButNotWritten(c);
    tr := Do(c, tr, TestsFirst);
    tr := Do(c, tr, TriesStop);
    tr := Do(c, tr, TestsSecond);
    tr := Do(c, tr, RecheckStep(ListFails));
    tr := Do(c, tr, BodyReturns);
    assert After(c, tr).exitCode == 0;
    tr := Do(c, tr, RecheckReturns);
  }

  /** So an inspected 0 does not guarantee FINISHED. */
  lemma InspectedZeroYetFailed(c: Config)
    requires c.role == ""
    ensures exists tr :: Valid(c, tr) && Inspected(0) in After(c, tr).log && Sent(Failed) in After(c, tr).log
  {
    var tr := ZeroIsOverwritten(c);
    tr := Do(c, tr, CleansLease);
    tr := Do(c, tr, CleansToken);
    tr := Do(c, tr, ReadsCode);
    tr := Do(c, tr, Reports(true));
  }
}
