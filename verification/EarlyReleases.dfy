/**
 Whoever waits on the WaitGroup can be released before the monitor has begun:
 exactly when the process can exit on a signal, or a drain be cut short, with
 nothing concluded.
 */
module EarlyReleases {
  import opened Options
  import opened TaskLifecycle
  import opened LifecycleSafety
  import opened TaskReports

  /** The log only grows. */
  lemma {:induction false} LogGrows(c: Config, tr: seq<Action>, i: nat)
    requires Valid(c, tr) && i <= |tr|
    ensures Valid(c, tr[..i]) && After(c, tr[..i]).log <= After(c, tr).log
  {
    if i < |tr| {
      LogGrows(c, Front(tr), i);
      assert Front(tr)[..i] == tr[..i];
    } else {
      assert tr[..i] == tr;
    }
  }

  // ----- What was known at a release -----

  lemma FreeingShows(c: Config, s: State, a: Action, w: Waiter)
    requires Enabled(c, s, a) && Freed(w) in Emits(c, s, a)
    ensures a == WaiterFreed(w) && Emits(c, s, a) == [Freed(w)]
  {
  }

  /**
   When a waiter was released, a terminal status had been sent, and the driver
   stopped, exactly if the monitor had done its Add by then.
   */
  lemma {:induction false} ReleasedKnew(c: Config, tr: seq<Action>, k: nat, w: Waiter)
    requires Valid(c, tr) && k < |After(c, tr).log| && After(c, tr).log[k] == Freed(w)
    ensures var past := After(c, tr).log[..k];
            && (WatcherAdded in past <==> Concluded(past))
            && (WatcherAdded in past <==> DriverStopped in past)
  {
    if tr != [] {
      var p, a := Front(tr), Last(tr);
      var s, es := After(c, p), Emits(c, After(c, p), a);
      assert After(c, tr).log == s.log + es;
      if k < |s.log| {
        ReleasedKnew(c, p, k, w);
        assert s.log[..k] == After(c, tr).log[..k];
      } else {
        assert es[k - |s.log|] == Freed(w);
        FreeingShows(c, s, a, w);
        ReleasedKnows(c, p, w);
        assert After(c, tr).log[..k] == s.log;
      }
    }
  }

  /** Of a launched task: the monitor is past the backoff exactly if it has done Add. */
  lemma AddedIsPastBackoff(c: Config, tr: seq<Action>)
    requires Valid(c, tr)
    ensures var s := After(c, tr);
            WatcherAdded in s.log <==> s.launch.Launched? && !s.monitor.Backoff?
  {
    var s := After(c, tr);
    StoryHolds(c, tr);
    PickKeeps(s.log, Ordered, WatcherAdded);
    if s.launch.Launched? && !s.monitor.Backoff? {
      StoryBegins(c, s.lease, s.stopTried, s.monitor);
      assert Outline(s.log)[1] == WatcherAdded;
    }
  }

  lemma StoryBegins(c: Config, lease: Option<Lease>, tried: bool, m: Monitor)
    requires !m.Absent? && !m.Backoff?
    ensures [Sent(Running), WatcherAdded] <= MonitorStory(c, lease, tried, m)
  {
    BeforeReportBegins(c, lease, tried);
  }

  /** A release that was yet to come when the monitor had done Add finds the task concluded. */
  lemma LaterReleaseKnows(c: Config, tr: seq<Action>, i: nat, w: Waiter)
    requires Valid(c, tr) && i <= |tr| && Valid(c, tr[..i])
    requires var log := After(c, tr[..i]).log; WatcherAdded in log && Freed(w) !in log
    ensures Freed(w) in After(c, tr).log ==> Concluded(After(c, tr).log)
  {
    var before, log := After(c, tr[..i]).log, After(c, tr).log;
    LogGrows(c, tr, i);
    if Freed(w) in log {
      var k: nat :| k < |log| && log[k] == Freed(w);
      ReleasedKnew(c, tr, k, w);
      assert forall j :: 0 <= j < |before| ==> before[j] == log[j];
      assert k >= |before|;
      var j :| 0 <= j < |before| && before[j] == WatcherAdded;
      assert log[..k][j] == WatcherAdded;
    }
  }

  lemma ConcludedStays(c: Config, tr: seq<Action>, i: nat)
    requires Valid(c, tr) && i <= |tr| && Valid(c, tr[..i]) && Concluded(After(c, tr[..i]).log)
    ensures Concluded(After(c, tr).log)
  {
    LogGrows(c, tr, i);
    var t: Status :| t != Running && Sent(t) in After(c, tr[..i]).log;
    assert Sent(t) in After(c, tr).log;
  }

  // ----- Exit on a signal -----

  /** The signal came before the launch was complete: there was no looper to wait for. */
  ghost predicate ArrivedEarly(c: Config, tr: seq<Action>) {
    exists i: nat :: ArrivedEarlyAt(c, tr, i)
  }

  ghost predicate ArrivedEarlyAt(c: Config, tr: seq<Action>, i: nat) {
    i < |tr| && tr[i].SignalArrives? && Valid(c, tr[..i]) && !After(c, tr[..i]).launch.Launched?
  }

  lemma ArrivedEarlyBefore(c: Config, tr: seq<Action>)
    requires Valid(c, tr) && tr != [] && ArrivedEarly(c, Front(tr))
    ensures ArrivedEarly(c, tr)
  {
    var i: nat :| ArrivedEarlyAt(c, Front(tr), i);
    assert Front(tr)[..i] == tr[..i];
    assert ArrivedEarlyAt(c, tr, i);
  }

  lemma ArrivedEarlyStep(c: Config, tr: seq<Action>)
    requires Valid(c, tr) && tr != []
    ensures ArrivedEarly(c, tr) <==> ArrivedEarly(c, Front(tr))
                                     || (Last(tr).SignalArrives? && !After(c, Front(tr)).launch.Launched?)
  {
    var p := Front(tr);
    assert tr[..|p|] == p;
    if ArrivedEarly(c, p) {
      ArrivedEarlyBefore(c, tr);
    } else if i: nat :| ArrivedEarlyAt(c, tr, i) {
      NotOnlyNow(c, tr, i);
    } else {
      assert !ArrivedEarlyAt(c, tr, |p|);
    }
  }

  lemma NotOnlyNow(c: Config, tr: seq<Action>, i: nat)
    requires tr != [] && ArrivedEarlyAt(c, tr, i)
    ensures i == |tr| - 1 || ArrivedEarly(c, Front(tr))
  {
    if i < |tr| - 1 {
      assert Front(tr)[..i] == tr[..i];
      assert ArrivedEarlyAt(c, Front(tr), i);
    }
  }

  /** `freed` and `early` are whether the handler's release was logged, and whether the signal came early. */
  predicate SignalInv(signal: Signal, freed: bool, early: bool) {
    match signal
    case Untouched => !freed && !early
    case AtWaitGroup => !freed && !early
    case Exiting => freed != early
  }

  /** Only its arrival and the handler's release move the signal on. */
  lemma SignalMoves(c: Config, s: State, a: Action)
    requires Enabled(c, s, a)
    ensures Apply(c, s, a).signal ==
            match a {
              case SignalArrives(_) => if s.launch.Launched? then AtWaitGroup else Exiting
              case WaiterFreed(SignalHandler) => Exiting
              case _ => s.signal
            }
  {
    if MonitorStep(a) {
      MonitorElsewhere(c, s, a);
    } else if LaunchStep(a) {
      LaunchElsewhere(c, s, a);
    }
  }

  /** Neither the monitor nor the launch is in a kill or in the signal handler. */
  lemma MonitorElsewhere(c: Config, s: State, a: Action)
    requires MonitorStep(a) && Enabled(c, s, a)
    ensures Moves(c, s, a).signal == s.signal && Moves(c, s, a).kills == s.kills
  {
  }

  lemma LaunchElsewhere(c: Config, s: State, a: Action)
    requires LaunchStep(a) && Enabled(c, s, a)
    ensures Moves(c, s, a).signal == s.signal && Moves(c, s, a).kills == s.kills
  {
    if s.launch.Doing? {
      StageElsewhere(c, s);
    }
  }

  lemma StageElsewhere(c: Config, s: State)
    requires s.launch.Doing?
    ensures forall lease :: var t := StageDone(c, s.(lease := lease)); t.signal == s.signal && t.kills == s.kills
    ensures StageDone(c, s).signal == s.signal && StageDone(c, s).kills == s.kills
  {
  }

  /** And only the release is logged as one. */
  lemma FreedStep(c: Config, s: State, a: Action, w: Waiter)
    requires Enabled(c, s, a)
    ensures Freed(w) in Apply(c, s, a).log <==> Freed(w) in s.log || a == WaiterFreed(w)
  {
    var es := Emits(c, s, a);
    if a == WaiterFreed(w) {
      assert es[0] == Freed(w);
    } else if Freed(w) in es {
      FreeingShows(c, s, a, w);
    }
  }

  lemma SignalStep(c: Config, s: State, a: Action, early: bool)
    requires Enabled(c, s, a) && SignalInv(s.signal, Freed(SignalHandler) in s.log, early)
    ensures var s' := Apply(c, s, a);
            SignalInv(s'.signal, Freed(SignalHandler) in s'.log, early || (a.SignalArrives? && !s.launch.Launched?))
  {
    SignalMoves(c, s, a);
    FreedStep(c, s, a, SignalHandler);
  }

  lemma {:induction false} SignalHolds(c: Config, tr: seq<Action>)
    requires Valid(c, tr)
    ensures SignalInv(After(c, tr).signal, Freed(SignalHandler) in After(c, tr).log, ArrivedEarly(c, tr))
  {
    if tr != [] {
      SignalHolds(c, Front(tr));
      ArrivedEarlyStep(c, tr);
      SignalStep(c, After(c, Front(tr)), Last(tr), ArrivedEarly(c, Front(tr)));
    }
  }

  /**
   When the process can exit on a signal, either the signal came before the launch
   was complete, or the handler was released; and at that moment a terminal status
   had been sent exactly if the monitor had done its Add.
   */
  lemma SignalExitKnows(c: Config, tr: seq<Action>)
    requires Valid(c, tr) && Enabled(c, After(c, tr), SignalExits)
    ensures var log := After(c, tr).log;
            && (Freed(SignalHandler) in log <==> !ArrivedEarly(c, tr))
            && forall k: nat :: k < |log| && log[k] == Freed(SignalHandler)
                 ==> (WatcherAdded in log[..k] <==> Concluded(log[..k]))
  {
    SignalHolds(c, tr);
    var log := After(c, tr).log;
    forall k: nat | k < |log| && log[k] == Freed(SignalHandler)
      ensures WatcherAdded in log[..k] <==> Concluded(log[..k])
    {
      ReleasedKnew(c, tr, k, SignalHandler);
    }
  }

  /** The run ends with the process exiting on a signal, and no terminal status was sent. */
  ghost predicate SilentExit(c: Config, tr: seq<Action>) {
    Valid(c, tr) && tr != [] && Last(tr).SignalExits? && !Concluded(After(c, tr).log)
  }

  /** From its arrival at the WaitGroup, the handler gets to the exit only by being released. */
  lemma {:induction false} ExitIsReleased(c: Config, tr: seq<Action>, i: nat)
    requires Valid(c, tr) && i <= |tr| && Valid(c, tr[..i]) && After(c, tr[..i]).signal.AtWaitGroup?
    ensures After(c, tr).signal.AtWaitGroup? || Freed(SignalHandler) in After(c, tr).log
    decreases |tr|
  {
    if i == |tr| {
      assert tr[..i] == tr;
    } else {
      assert Front(tr)[..i] == tr[..i];
      ExitIsReleased(c, Front(tr), i);
      SignalMoves(c, After(c, Front(tr)), Last(tr));
      FreedStep(c, After(c, Front(tr)), Last(tr), SignalHandler);
    }
  }

  /** A signal that finds Add done, or a failed launch reported, does not end the process silently. */
  lemma ExitIsConcluded(c: Config, tr: seq<Action>, i: nat)
    requires Valid(c, tr) && i + 1 < |tr| && tr[i].SignalArrives? && Last(tr).SignalExits? && Valid(c, tr[..i])
    requires WatcherAdded in After(c, tr[..i]).log || Concluded(After(c, tr[..i]).log)
    ensures Concluded(After(c, tr).log)
  {
    if Concluded(After(c, tr[..i]).log) {
      ConcludedStays(c, tr, i);
    } else {
      AddedIsPastBackoff(c, tr[..i]);
      StepTaken(c, tr, i);
      SignalMoves(c, After(c, tr[..i]), tr[i]);
      SignalHolds(c, tr[..i]);
      ReleasedBeforeExit(c, tr, i + 1);
      LaterReleaseKnows(c, tr, i, SignalHandler);
    }
  }

  lemma ReleasedBeforeExit(c: Config, tr: seq<Action>, i: nat)
    requires Valid(c, tr) && i < |tr| && Last(tr).SignalExits?
    requires Valid(c, tr[..i]) && After(c, tr[..i]).signal.AtWaitGroup?
    ensures Freed(SignalHandler) in After(c, tr).log
  {
    var p := Front(tr);
    assert p[..i] == tr[..i];
    ExitIsReleased(c, p, i);
    FreedStep(c, After(c, p), Last(tr), SignalHandler);
  }

  lemma NoSilentExit(c: Config, tr: seq<Action>, usr1: bool, ext: seq<Action>)
    requires Valid(c, tr) && Enabled(c, After(c, tr), SignalArrives(usr1))
    requires WatcherAdded in After(c, tr).log || Concluded(After(c, tr).log)
    ensures !SilentExit(c, tr + [SignalArrives(usr1)] + ext)
  {
    var run := tr + [SignalArrives(usr1)] + ext;
    assert run[..|tr|] == tr;
    if Valid(c, run) && ext != [] && Last(run).SignalExits? {
      ExitIsConcluded(c, run, |tr|);
    }
  }

  /** Any other can. */
  lemma SilentExitExists(c: Config, tr: seq<Action>, usr1: bool)
    requires Valid(c, tr) && Enabled(c, After(c, tr), SignalArrives(usr1))
    requires WatcherAdded !in After(c, tr).log && !Concluded(After(c, tr).log)
    ensures exists ext :: SilentExit(c, tr + [SignalArrives(usr1)] + ext)
  {
    var base := tr + [SignalArrives(usr1)];
    Extend(c, tr, SignalArrives(usr1));
    SignalMoves(c, After(c, tr), SignalArrives(usr1));
    assert After(c, base).log == After(c, tr).log;
    if After(c, tr).launch.Launched? {
      AddedIsPastBackoff(c, tr);
      CountHolds(c, tr);
      var freed := base + [WaiterFreed(SignalHandler)];
      Extend(c, base, WaiterFreed(SignalHandler));
      NothingConcludedBy(After(c, base).log, After(c, freed).log, Freed(SignalHandler));
      ExitsNow(c, freed);
      assert freed + [SignalExits] == base + [WaiterFreed(SignalHandler), SignalExits];
    } else {
      ExitsNow(c, base);
    }
  }

  lemma ExitsNow(c: Config, tr: seq<Action>)
    requires Valid(c, tr) && Enabled(c, After(c, tr), SignalExits) && !Concluded(After(c, tr).log)
    ensures SilentExit(c, tr + [SignalExits])
  {
    Extend(c, tr, SignalExits);
    assert After(c, tr + [SignalExits]).log == After(c, tr).log;
  }

  lemma NothingConcludedBy(log: seq<Effect>, log': seq<Effect>, e: Effect)
    requires !Concluded(log) && log' == log + [e] && !e.Sent?
    ensures !Concluded(log')
  {
  }

  /**
   A signal can end the process with no terminal status sent exactly if it arrives
   before the monitor has done its Add and before a failed launch is reported.
   */
  lemma SilentExitExactlyIf(c: Config, tr: seq<Action>, usr1: bool)
    requires Valid(c, tr) && Enabled(c, After(c, tr), SignalArrives(usr1))
    ensures (exists ext :: SilentExit(c, tr + [SignalArrives(usr1)] + ext))
            <==> WatcherAdded !in After(c, tr).log && !Concluded(After(c, tr).log)
  {
    if WatcherAdded !in After(c, tr).log && !Concluded(After(c, tr).log) {
      SilentExitExists(c, tr, usr1);
    } else {
      forall ext ensures !SilentExit(c, tr + [SignalArrives(usr1)] + ext) {
        NoSilentExit(c, tr, usr1, ext);
      }
    }
  }

  // ----- Drains that are cut short -----

  ghost predicate DrainInv(c: Config, s: State, k: nat) {
    && (Freed(DrainOf(k)) in s.log ==> k in s.kills)
    && (Drained(k, true) in s.log ==> Drains(c) && Freed(DrainOf(k)) in s.log)
  }

  lemma CuttingShows(c: Config, s: State, a: Action, k: nat)
    requires Enabled(c, s, a) && Drained(k, true) in Emits(c, s, a)
    ensures a == KillDrained(k, true)
  {
  }

  lemma KillsStay(c: Config, s: State, a: Action, k: nat)
    requires Enabled(c, s, a) && k in s.kills
    ensures k in Apply(c, s, a).kills
  {
    if MonitorStep(a) {
      MonitorElsewhere(c, s, a);
    } else if LaunchStep(a) {
      LaunchElsewhere(c, s, a);
    }
  }

  lemma {:induction false} DrainHolds(c: Config, tr: seq<Action>, k: nat)
    requires Valid(c, tr)
    ensures DrainInv(c, After(c, tr), k)
  {
    if tr != [] {
      var s, a := After(c, Front(tr)), Last(tr);
      var es := Emits(c, s, a);
      DrainHolds(c, Front(tr), k);
      assert After(c, tr).log == s.log + es;
      if Freed(DrainOf(k)) in es {
        FreeingShows(c, s, a, DrainOf(k));
      }
      if Drained(k, true) in es {
        CuttingShows(c, s, a, k);
      }
      if k in s.kills {
        KillsStay(c, s, a, k);
      }
    }
  }

  /** The final wait of this drain was cut short, and no terminal status was sent. */
  ghost predicate SilentDrain(c: Config, tr: seq<Action>, k: nat) {
    Valid(c, tr) && Drained(k, true) in After(c, tr).log && !Concluded(After(c, tr).log)
  }

  /** A drain that had not been released when Add was done is not cut short before the task is concluded. */
  lemma CutShortIsConcluded(c: Config, tr: seq<Action>, i: nat, k: nat)
    requires Valid(c, tr) && i <= |tr| && Valid(c, tr[..i]) && k !in After(c, tr[..i]).kills
    requires Drained(k, true) in After(c, tr).log
    requires Drains(c) ==> WatcherAdded in After(c, tr[..i]).log
    ensures Concluded(After(c, tr).log)
  {
    DrainHolds(c, tr, k);
    DrainHolds(c, tr[..i], k);
    LaterReleaseKnows(c, tr, i, DrainOf(k));
  }

  lemma NoSilentDrain(c: Config, tr: seq<Action>, k: nat, ext: seq<Action>)
    requires Valid(c, tr) && Enabled(c, After(c, tr), KillBegins(k))
    requires !Drains(c) || WatcherAdded in After(c, tr).log
    ensures !SilentDrain(c, tr + [KillBegins(k)] + ext, k)
  {
    var run := tr + [KillBegins(k)] + ext;
    assert run[..|tr|] == tr;
    if Valid(c, run) && Drained(k, true) in After(c, run).log {
      CutShortIsConcluded(c, run, |tr|, k);
    }
  }

  lemma SilentDrainExists(c: Config, tr: seq<Action>, k: nat)
    requires Valid(c, tr) && Enabled(c, After(c, tr), KillBegins(k))
    requires Drains(c) && WatcherAdded !in After(c, tr).log
    ensures exists ext :: SilentDrain(c, tr + [KillBegins(k)] + ext, k)
  {
    var base := tr + [KillBegins(k)];
    AddedIsPastBackoff(c, tr);
    CountHolds(c, tr);
    ReportsHold(c, tr);
    ConcludedOrNot(After(c, tr));
    KillBegun(c, tr, k);
    CutShortNow(c, base, k);
    assert base + [WaiterFreed(DrainOf(k))] + [KillDrained(k, true)]
        == base + [WaiterFreed(DrainOf(k)), KillDrained(k, true)];
  }

  lemma KillBegun(c: Config, tr: seq<Action>, k: nat)
    requires Valid(c, tr) && Enabled(c, After(c, tr), KillBegins(k))
    ensures var base := tr + [KillBegins(k)];
            && Valid(c, base) && After(c, base).log == After(c, tr).log && !After(c, base).exited
            && After(c, base).waitCount == After(c, tr).waitCount
            && k in After(c, base).kills && After(c, base).kills[k].Draining?
  {
    Extend(c, tr, KillBegins(k));
  }

  lemma CutShortNow(c: Config, tr: seq<Action>, k: nat)
    requires Valid(c, tr) && Enabled(c, After(c, tr), WaiterFreed(DrainOf(k))) && !Concluded(After(c, tr).log)
    requires Drains(c) && After(c, tr).kills[k].Draining?
    ensures SilentDrain(c, tr + [WaiterFreed(DrainOf(k))] + [KillDrained(k, true)], k)
  {
    var freed := tr + [WaiterFreed(DrainOf(k))];
    var drained := freed + [KillDrained(k, true)];
    Extend(c, tr, WaiterFreed(DrainOf(k)));
    Extend(c, freed, KillDrained(k, true));
    NothingConcludedBy(After(c, tr).log, After(c, freed).log, Freed(DrainOf(k)));
    NothingConcludedBy(After(c, freed).log, After(c, drained).log, Drained(k, true));
  }

  /**
   A drain can be cut short although the task is not concluded exactly if there is
   one, and the kill comes before the monitor has done its Add.
   */
  lemma SilentDrainExactlyIf(c: Config, tr: seq<Action>, k: nat)
    requires Valid(c, tr) && Enabled(c, After(c, tr), KillBegins(k))
    ensures (exists ext :: SilentDrain(c, tr + [KillBegins(k)] + ext, k))
            <==> Drains(c) && WatcherAdded !in After(c, tr).log
  {
    if Drains(c) && WatcherAdded !in After(c, tr).log {
      SilentDrainExists(c, tr, k);
    } else {
      forall ext ensures !SilentDrain(c, tr + [KillBegins(k)] + ext, k) {
        NoSilentDrain(c, tr, k, ext);
      }
    }
  }
}
