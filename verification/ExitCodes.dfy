/**
 Which of the exit codes that were inspected is reported. The loop's checks and
 the monitor's own all write one variable, which the monitor reads once: what
 counts is the last check that returned before that.
 */
module ExitCodes {
  import opened Options
  import opened TaskLifecycle
  import opened LifecycleSafety
  import opened TaskReports

  /** The exit code that a check returns whose last call turned out like this. */
  function CodeOf(o: Outcome): int {
    if o.Inspects? then o.code else UNKNOWN
  }

  /** What the check that the loop goroutine is in, or was in last, has found so far. */
  ghost function LoopSaw(tr: seq<Action>): int {
    if tr == [] then UNKNOWN
    else
      match Last(tr)
      case BodyStep(o) => CodeOf(o)
      case _ => LoopSaw(Front(tr))
  }

  /** The same for the check that the monitor makes itself. */
  ghost function RecheckSaw(tr: seq<Action>): int {
    if tr == [] then UNKNOWN
    else
      match Last(tr)
      case RecheckStep(o) => CodeOf(o)
      case _ => RecheckSaw(Front(tr))
  }

  /** The exit code that the last check to return has returned. */
  ghost function LastReturned(tr: seq<Action>): int {
    if tr == [] then UNKNOWN
    else
      match Last(tr)
      case BodyReturns => LoopSaw(Front(tr))
      case RecheckReturns => RecheckSaw(Front(tr))
      case _ => LastReturned(Front(tr))
  }

  predicate BeforeLoop(m: Monitor) {
    m.Absent? || m.Backoff? || m.Added?
  }

  /** The codes in the state are the codes in the history. */
  ghost predicate CodesInv(s: State, last: int, loop: int, recheck: int) {
    && s.exitCode == last
    && (s.loop.Body? && s.loop.check.Returning? ==> s.loop.check.code == loop)
    && (s.monitor.Rechecking? && s.monitor.check.Returning? ==> s.monitor.check.code == recheck)
    && (BeforeLoop(s.monitor) ==> s.loop.NotStarted? && s.exitCode == UNKNOWN)
  }

  lemma MonitorStepCodes(c: Config, s: State, a: Action, last: int, loop: int, recheck: int)
    requires MonitorStep(a) && Enabled(c, s, a) && CodesInv(s, last, loop, recheck)
    ensures CodesInv(Apply(c, s, a), if a.RecheckReturns? then recheck else last, loop,
                     if a.RecheckStep? then CodeOf(a.outcome) else recheck)
  {
  }

  lemma OtherStepCodes(c: Config, s: State, a: Action, last: int, loop: int, recheck: int)
    requires !MonitorStep(a) && !LaunchStep(a) && Enabled(c, s, a) && CodesInv(s, last, loop, recheck)
    ensures CodesInv(Apply(c, s, a), if a.BodyReturns? then loop else last,
                     if a.BodyStep? then CodeOf(a.outcome) else loop, recheck)
  {
  }

  /** Before the launch is complete there is no monitor. */
  lemma LaunchKeepsCodes(s: State, s': State, es: seq<Effect>, last: int, loop: int, recheck: int)
    requires CodesUntouched(s, s', es) && s.monitor.Absent? && CodesInv(s, last, loop, recheck)
    ensures CodesInv(s', last, loop, recheck)
  {
  }

  lemma {:induction false} CodesHold(c: Config, tr: seq<Action>)
    requires Valid(c, tr)
    ensures CodesInv(After(c, tr), LastReturned(tr), LoopSaw(tr), RecheckSaw(tr))
  {
    if tr != [] {
      var p, a := Front(tr), Last(tr);
      var s := After(c, p);
      CodesHold(c, p);
      if MonitorStep(a) {
        MonitorStepCodes(c, s, a, LastReturned(p), LoopSaw(p), RecheckSaw(p));
      } else if LaunchStep(a) {
        StoryHolds(c, p);
        LaunchStepCodes(c, s, a);
        LaunchKeepsCodes(s, Apply(c, s, a), Emits(c, s, a), LastReturned(p), LoopSaw(p), RecheckSaw(p));
      } else {
        OtherStepCodes(c, s, a, LastReturned(p), LoopSaw(p), RecheckSaw(p));
      }
    }
  }

  // ----- The code that the monitor reads -----

  function CodeRead(m: Monitor): Option<int> {
    match m
    case Reporting(code) => Some(code)
    case Reported(code) => Some(code)
    case Stopped(code) => Some(code)
    case Over(code) => Some(code)
    case _ => None
  }

  predicate HasReported(m: Monitor) {
    m.Reported? || m.Stopped? || m.Over?
  }

  /** At step `i` the monitor read the exit code, and found this one. */
  ghost predicate ReadAt(tr: seq<Action>, i: nat, code: int) {
    i < |tr| && tr[i].ReadsCode? && LastReturned(tr[..i]) == code
  }

  lemma ReadStep(c: Config, s: State, a: Action)
    requires MonitorStep(a) && Enabled(c, s, a)
    ensures var m := Apply(c, s, a).monitor;
            && CodeRead(m) == (if a.ReadsCode? then Some(s.exitCode) else CodeRead(s.monitor))
            && (HasReported(m) <==> HasReported(s.monitor) || a == Reports(true))
  {
  }

  lemma StepOfMonitor(c: Config, tr: seq<Action>)
    requires Valid(c, tr) && tr != []
    ensures var s, m := After(c, Front(tr)), After(c, tr).monitor;
            && CodeRead(m) == (if Last(tr).ReadsCode? then Some(s.exitCode) else CodeRead(s.monitor))
            && (HasReported(m) <==> HasReported(s.monitor) || Last(tr) == Reports(true))
  {
    var s, a := After(c, Front(tr)), Last(tr);
    if MonitorStep(a) {
      ReadStep(c, s, a);
    } else if LaunchStep(a) {
      StoryHolds(c, Front(tr));
      LaunchStepCodes(c, s, a);
    } else {
      OtherStepShowsNothing(c, s, a);
    }
  }

  /** The monitor has the code that the last check had returned when it read the variable. */
  lemma {:induction false} ReadIsLastReturned(c: Config, tr: seq<Action>, code: int)
    requires Valid(c, tr)
    ensures CodeRead(After(c, tr).monitor) == Some(code) <==> exists i: nat :: ReadAt(tr, i, code)
  {
    if tr != [] {
      var p := Front(tr);
      ReadIsLastReturned(c, p, code);
      CodesHold(c, p);
      StepOfMonitor(c, tr);
      ReadAtStep(tr, code);
    }
  }

  lemma ReadAtStep(tr: seq<Action>, code: int)
    requires tr != []
    ensures (exists i: nat :: ReadAt(tr, i, code))
            <==> (exists i: nat :: ReadAt(Front(tr), i, code))
                 || (Last(tr).ReadsCode? && LastReturned(Front(tr)) == code)
  {
    var p := Front(tr);
    assert tr[..|p|] == p;
    if i: nat :| ReadAt(tr, i, code) && i < |p| {
      assert p[..i] == tr[..i] && ReadAt(p, i, code);
    }
    if i: nat :| ReadAt(p, i, code) {
      assert p[..i] == tr[..i] && ReadAt(tr, i, code);
    }
    if Last(tr).ReadsCode? && LastReturned(p) == code {
      assert ReadAt(tr, |p|, code);
    }
  }

  lemma InLonger(tr: seq<Action>, a: Action)
    requires tr != []
    ensures a in tr <==> a in Front(tr) || Last(tr) == a
  {
    assert tr == Front(tr) + [Last(tr)];
  }

  lemma {:induction false} ReportedIfSent(c: Config, tr: seq<Action>)
    requires Valid(c, tr)
    ensures HasReported(After(c, tr).monitor) <==> Reports(true) in tr
  {
    if tr != [] {
      ReportedIfSent(c, Front(tr));
      StepOfMonitor(c, tr);
      InLonger(tr, Reports(true));
    }
  }

  /**
   What the monitor reports is, for every run, the status for the exit code that
   the last check to return before the monitor's reading of the variable returned.
   */
  lemma StatusIsOfLastCheck(c: Config, tr: seq<Action>, t: Status)
    requires Valid(c, tr) && t != Running && After(c, tr).launch.Launched?
    ensures Sent(t) in After(c, tr).log
            <==> Reports(true) in tr && exists i: nat, code: int :: ReadAt(tr, i, code) && StatusFor(code) == t
  {
    var s := After(c, tr);
    WhoConcludes(c, tr, t);
    ReportedIfSent(c, tr);
    if code :| ReportedCode(s, code) && StatusFor(code) == t {
      ReadIsLastReturned(c, tr, code);
    }
    if Reports(true) in tr {
      if i: nat, code: int :| ReadAt(tr, i, code) && StatusFor(code) == t {
        ReadIsLastReturned(c, tr, code);
        assert ReportedCode(s, code);
      }
    }
  }

  /**
   So FINISHED is reported exactly if the last check that returned before then had
   inspected 0, and KILLED exactly if it had inspected a code in 129..165.
   */
  lemma FinishedOrKilledExactlyIf(c: Config, tr: seq<Action>)
    requires Valid(c, tr)
    ensures var log := After(c, tr).log;
            && (Sent(Finished) in log <==> Reports(true) in tr && exists i: nat :: ReadAt(tr, i, 0))
            && (Sent(Killed) in log
                <==> Reports(true) in tr && exists i: nat, code: int :: 129 <= code <= 165 && ReadAt(tr, i, code))
  {
    if After(c, tr).launch.Launched? {
      StatusIsOfLastCheck(c, tr, Finished);
      StatusIsOfLastCheck(c, tr, Killed);
    } else {
      WhoConcludes(c, tr, Finished);
      WhoConcludes(c, tr, Killed);
      ReportedIfSent(c, tr);
      StoryHolds(c, tr);
    }
  }
}
