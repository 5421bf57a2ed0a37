/** What every interleaving of TaskLifecycle keeps, and what that says about reports to Mesos. */
module LifecycleSafety {
  import opened Options
  import opened TaskLifecycle

  // ----- The order of what can be seen -----

  /** The effects whose order one launch determines. */
  predicate Ordered(e: Effect) {
    match e
    case Sent(_) | DriverStopped | LeaseRevoked(_, _) | TokenRevoked => true
    case WatcherAdded | WatcherDone | WaitEnded | StopTried => true
    case _ => false
  }

  /** The entries that satisfy `want`, in order. */
  ghost function Pick(log: seq<Effect>, want: Effect -> bool): seq<Effect> {
    if log == [] then []
    else if want(Last(log)) then Pick(Front(log), want) + [Last(log)]
    else Pick(Front(log), want)
  }

  lemma PickOne(log: seq<Effect>, e: Effect, want: Effect -> bool)
    ensures Pick(log + [e], want) == if want(e) then Pick(log, want) + [e] else Pick(log, want)
  {
    assert Front(log + [e]) == log;
  }

  lemma {:induction false} PickKeeps(log: seq<Effect>, want: Effect -> bool, e: Effect)
    ensures e in Pick(log, want) <==> e in log && want(e)
  {
    if log != [] {
      PickKeeps(Front(log), want, e);
      assert log == Front(log) + [Last(log)];
    }
  }

  /** Picking from what was picked is picking, if the second choice is narrower. */
  lemma {:induction false} PickTwice(log: seq<Effect>, wide: Effect -> bool, narrow: Effect -> bool)
    requires forall e :: narrow(e) ==> wide(e)
    ensures Pick(Pick(log, wide), narrow) == Pick(log, narrow)
  {
    if log != [] {
      PickTwice(Front(log), wide, narrow);
      PickOne(Pick(Front(log), wide), Last(log), narrow);
    }
  }

  ghost function Outline(log: seq<Effect>): seq<Effect> {
    Pick(log, Ordered)
  }

  lemma OutlineStep(log: seq<Effect>, es: seq<Effect>)
    requires |es| <= 1
    ensures Outline(log + es) == if es != [] && Ordered(es[0]) then Outline(log) + [es[0]] else Outline(log)
  {
    if es == [] {
      assert log + es == log;
    } else {
      assert es == [es[0]];
      PickOne(log, es[0], Ordered);
    }
  }

  /** `story`, followed by the given effect if there is one. */
  function With(story: seq<Effect>, shown: bool, e: Effect): seq<Effect> {
    if shown then story + [e] else story
  }

  /** All that a failed launch shows. */
  const FAILED_LAUNCH: seq<Effect> := [Sent(Running), Sent(Failed), DriverStopped]

  function WithLease(story: seq<Effect>, lease: Option<Lease>): seq<Effect> {
    if lease.Some? then story + [LeaseRevoked(lease.value.id, lease.value.role)] else story
  }

  /** What a monitored task shows until it reports; `tried` is whether the monitor tried to stop it. */
  function BeforeReport(c: Config, lease: Option<Lease>, tried: bool): seq<Effect> {
    var begun := With([Sent(Running), WatcherAdded, WaitEnded], tried, StopTried);
    With(WithLease(begun, lease), c.privateToken, TokenRevoked)
  }

  /** All that a monitored task shows when the monitor reports `t`. */
  function MonitoredTask(c: Config, lease: Option<Lease>, tried: bool, t: Status): seq<Effect> {
    BeforeReport(c, lease, tried) + [Sent(t)] + [DriverStopped] + [WatcherDone]
  }

  /** How much of MonitoredTask has been shown, by where the monitor is. */
  function MonitorStory(c: Config, lease: Option<Lease>, tried: bool, m: Monitor): seq<Effect> {
    match m
    case Absent | Backoff => [Sent(Running)]
    case Added | InWait => [Sent(Running), WatcherAdded]
    case FirstTest | Stopping => [Sent(Running), WatcherAdded, WaitEnded]
    case SecondTest | Rechecking(_) | LeaseCleanup =>
      With([Sent(Running), WatcherAdded, WaitEnded], tried, StopTried)
    case TokenCleanup => WithLease(With([Sent(Running), WatcherAdded, WaitEnded], tried, StopTried), lease)
    case Reading | Reporting(_) => BeforeReport(c, lease, tried)
    case Reported(code) => BeforeReport(c, lease, tried) + [Sent(StatusFor(code))]
    case Stopped(code) => BeforeReport(c, lease, tried) + [Sent(StatusFor(code))] + [DriverStopped]
    case Over(code) => MonitoredTask(c, lease, tried, StatusFor(code))
  }

  function Story(c: Config, s: State): seq<Effect> {
    match s.launch
    case Idle => []
    case Doing(_) | Failing => [Sent(Running)]
    case FailSent => [Sent(Running), Sent(Failed)]
    case FailStopped => FAILED_LAUNCH
    case Launched => MonitorStory(c, s.lease, s.stopTried, s.monitor)
  }

  predicate BeforeStopping(m: Monitor) {
    m.Absent? || m.Backoff? || m.Added? || m.InWait? || m.FirstTest? || m.Stopping?
  }

  ghost predicate StoryInv(c: Config, s: State) {
    && Outline(s.log) == Story(c, s)
    && (s.launch.Launched? <==> !s.monitor.Absent?)
    && (BeforeStopping(s.monitor) ==> !s.stopTried)
  }

  predicate LaunchStep(a: Action) {
    match a
    case LaunchBegins(_) | StagePasses(_) | CredsPass(_, _, _) | TtlPass(_, _) => true
    case StageFails | StageCrashes | LaunchFailReports(_) | LaunchFailStops => true
    case _ => false
  }

  predicate MonitorStep(a: Action) {
    match a
    case Add | LoopStarts | WaitReturns | TestsFirst | TriesStop | TestsSecond | RecheckStep(_) => true
    case RecheckReturns | CleansLease | CleansToken | ReadsCode | Reports(_) | StopsDriver | SignsOff => true
    case _ => false
  }

  /** LaunchTask takes a step from `s` to `s'` that shows `es`. */
  ghost predicate LaunchMoves(c: Config, s: State, s': State, es: seq<Effect>) {
    && |es| <= 1 && s'.log == s.log + es && s'.stopTried == s.stopTried
    && (s'.monitor == s.monitor || (s'.launch.Launched? && s'.monitor.Backoff?))
    && match s.launch
       case Idle => (es == [] && s'.launch.Idle?) || (es == [Sent(Running)] && s'.launch.Doing?)
       case Doing(_) =>
         && (es != [] ==> es[0].Leased? || es[0].Renewed?)
         && (s'.launch.Doing? || s'.launch.Failing? || (s'.launch.Launched? && s'.monitor.Backoff?))
       case Failing => (es == [] && s'.launch.Failing?) || (es == [Sent(Failed)] && s'.launch.FailSent?)
       case FailSent => es == [DriverStopped] && s'.launch.FailStopped?
       case _ => false
  }

  lemma LaunchStepMoves(c: Config, s: State, a: Action)
    requires LaunchStep(a) && Enabled(c, s, a)
    ensures LaunchMoves(c, s, Apply(c, s, a), Emits(c, s, a))
  {
  }

  lemma LaunchKeepsStory(c: Config, s: State, s': State, es: seq<Effect>)
    requires LaunchMoves(c, s, s', es) && StoryInv(c, s)
    ensures StoryInv(c, s')
  {
    OutlineStep(s.log, es);
  }

  /** The monitor takes a step from `s` to `s'` that shows `es`. */
  ghost predicate MonitorMoves(c: Config, s: State, s': State, es: seq<Effect>) {
    && |es| <= 1 && s'.log == s.log + es
    && s'.launch == s.launch && s'.lease == s.lease
    && !s'.monitor.Absent?
    && s'.stopTried == (s.stopTried || s.monitor.Stopping?)
    && match s.monitor
       case Backoff => es == [WatcherAdded] && s'.monitor.Added?
       case Added => es == [] && s'.monitor.InWait?
       case InWait => es == [WaitEnded] && s'.monitor.FirstTest?
       case FirstTest => es == [] && (s'.monitor.Stopping? || s'.monitor.SecondTest?)
       case Stopping => es == [StopTried] && s'.monitor.SecondTest?
       case SecondTest => es == [] && (s'.monitor.Rechecking? || s'.monitor.LeaseCleanup?)
       case Rechecking(_) =>
         && (es != [] ==> es[0].ContainerGone? || es[0].Inspected?)
         && (s'.monitor.Rechecking? || s'.monitor.LeaseCleanup?)
       case LeaseCleanup => es == WithLease([], s.lease) && s'.monitor.TokenCleanup?
       case TokenCleanup => es == With([], c.privateToken, TokenRevoked) && s'.monitor.Reading?
       case Reading => es == [] && s'.monitor.Reporting?
       case Reporting(code) =>
         (es == [] && s'.monitor == s.monitor) || (es == [Sent(StatusFor(code))] && s'.monitor == Reported(code))
       case Reported(code) => es == [DriverStopped] && s'.monitor == Stopped(code)
       case Stopped(code) => es == [WatcherDone] && s'.monitor == Over(code)
       case _ => false
  }

  lemma MonitorStepMoves(c: Config, s: State, a: Action)
    requires MonitorStep(a) && Enabled(c, s, a)
    ensures MonitorMoves(c, s, Apply(c, s, a), Emits(c, s, a))
  {
  }

  lemma MoveExtendsStory(c: Config, s: State, s': State, es: seq<Effect>)
    requires MonitorMoves(c, s, s', es)
    requires BeforeStopping(s.monitor) ==> !s.stopTried
    ensures var story, story' := MonitorStory(c, s.lease, s.stopTried, s.monitor),
                                 MonitorStory(c, s.lease, s'.stopTried, s'.monitor);
            story' == if es != [] && Ordered(es[0]) then story + [es[0]] else story
  {
    match s.monitor
    case Backoff | Added | InWait | FirstTest =>
    case Stopping | SecondTest =>
    case Rechecking(_) =>
    case _ =>
  }

  lemma MoveKeepsStory(c: Config, s: State, s': State, es: seq<Effect>)
    requires MonitorMoves(c, s, s', es) && StoryInv(c, s)
    ensures StoryInv(c, s')
  {
    OutlineStep(s.log, es);
    MoveExtendsStory(c, s, s', es);
  }

  lemma OtherStepShowsNothing(c: Config, s: State, a: Action)
    requires !LaunchStep(a) && !MonitorStep(a) && Enabled(c, s, a)
    ensures var s', es := Apply(c, s, a), Emits(c, s, a);
            && s'.launch == s.launch && s'.lease == s.lease && s'.monitor == s.monitor && s'.stopTried == s.stopTried
            && |es| <= 1 && (es != [] ==> !Ordered(es[0])) && s'.log == s.log + es
  {
  }

  lemma NothingShown(c: Config, s: State, s': State, es: seq<Effect>)
    requires s'.launch == s.launch && s'.lease == s.lease && s'.monitor == s.monitor && s'.stopTried == s.stopTried
    requires |es| <= 1 && (es != [] ==> !Ordered(es[0])) && s'.log == s.log + es
    requires StoryInv(c, s)
    ensures StoryInv(c, s')
  {
    OutlineStep(s.log, es);
  }

  lemma StoryStep(c: Config, s: State, a: Action)
    requires Enabled(c, s, a) && StoryInv(c, s)
    ensures StoryInv(c, Apply(c, s, a))
  {
    if LaunchStep(a) {
      LaunchStepMoves(c, s, a);
      LaunchKeepsStory(c, s, Apply(c, s, a), Emits(c, s, a));
    } else if MonitorStep(a) {
      MonitorStepMoves(c, s, a);
      MoveKeepsStory(c, s, Apply(c, s, a), Emits(c, s, a));
    } else {
      OtherStepShowsNothing(c, s, a);
      NothingShown(c, s, Apply(c, s, a), Emits(c, s, a));
    }
  }

  lemma {:induction false} StoryHolds(c: Config, tr: seq<Action>)
    requires Valid(c, tr)
    ensures StoryInv(c, After(c, tr))
  {
    if tr != [] {
      StoryHolds(c, Front(tr));
      StoryStep(c, After(c, Front(tr)), Last(tr));
    }
  }

  // ----- The reports to Mesos, and the driver's stop -----

  predicate IsReport(e: Effect) {
    e.Sent? || e.DriverStopped?
  }

  function ToldByMonitor(m: Monitor): seq<Effect> {
    match m
    case Reported(code) => [Sent(Running), Sent(StatusFor(code))]
    case Stopped(code) => [Sent(Running), Sent(StatusFor(code)), DriverStopped]
    case Over(code) => [Sent(Running), Sent(StatusFor(code)), DriverStopped]
    case _ => [Sent(Running)]
  }

  function ToldMesos(s: State): seq<Effect> {
    match s.launch
    case Idle => []
    case Doing(_) | Failing => [Sent(Running)]
    case FailSent => [Sent(Running), Sent(Failed)]
    case FailStopped => FAILED_LAUNCH
    case Launched => ToldByMonitor(s.monitor)
  }

  ghost predicate ReportInv(s: State) {
    Pick(s.log, IsReport) == ToldMesos(s)
  }

  /** Those of at most one effect that are reports. */
  function ReportsIn(es: seq<Effect>): seq<Effect> {
    if es != [] && IsReport(es[0]) then [es[0]] else []
  }

  /** What a step tells Mesos is what is added to what Mesos was told. */
  lemma ReportStep(s: State, s': State, es: seq<Effect>)
    requires |es| <= 1 && s'.log == s.log + es
    requires ToldMesos(s') == ToldMesos(s) + ReportsIn(es) && ReportInv(s)
    ensures ReportInv(s')
  {
    if es == [] {
      assert s'.log == s.log;
    } else {
      assert es == [es[0]];
      PickOne(s.log, es[0], IsReport);
    }
  }

  lemma LaunchTells(c: Config, s: State, s': State, es: seq<Effect>)
    requires LaunchMoves(c, s, s', es)
    requires s.launch.Launched? <==> !s.monitor.Absent?
    ensures ToldMesos(s') == ToldMesos(s) + ReportsIn(es)
  {
  }

  lemma MoveTells(c: Config, s: State, s': State, es: seq<Effect>)
    requires MonitorMoves(c, s, s', es)
    ensures ToldByMonitor(s'.monitor) == ToldByMonitor(s.monitor) + ReportsIn(es)
  {
  }

  lemma {:induction false} ReportsHold(c: Config, tr: seq<Action>)
    requires Valid(c, tr)
    ensures ReportInv(After(c, tr))
  {
    if tr != [] {
      var s, a := After(c, Front(tr)), Last(tr);
      var s', es := Apply(c, s, a), Emits(c, s, a);
      ReportsHold(c, Front(tr));
      StoryHolds(c, Front(tr));
      if LaunchStep(a) {
        LaunchStepMoves(c, s, a);
        LaunchTells(c, s, s', es);
      } else if MonitorStep(a) {
        MonitorStepMoves(c, s, a);
        MoveTells(c, s, s', es);
      } else {
        OtherStepShowsNothing(c, s, a);
      }
      ReportStep(s, s', es);
    }
  }

  // ----- What stands behind an exit code -----

  ghost function Seen(log: seq<Effect>): set<Effect> {
    set e | e in log
  }

  /** Code -1 claims nothing; any other was inspected. */
  ghost predicate Backed(seen: set<Effect>, code: int) {
    code == UNKNOWN || Inspected(code) in seen
  }

  ghost predicate CheckBacked(seen: set<Effect>, check: Check) {
    match check
    case Inspecting => ContainerGone in seen
    case Returning(code, _) => Backed(seen, code)
    case _ => true
  }

  /** The monitor has passed the point where it stops a container that may be running. */
  predicate PastStopping(m: Monitor) {
    !BeforeStopping(m)
  }

  ghost predicate ActorsBacked(s: State, seen: set<Effect>) {
    && Backed(seen, s.exitCode)
    && (s.loop.Body? ==> CheckBacked(seen, s.loop.check))
    && match s.monitor
       case Rechecking(check) => CheckBacked(seen, check)
       case Reporting(code) => Backed(seen, code)
       case Reported(code) => Backed(seen, code)
       case Stopped(code) => Backed(seen, code)
       case Over(code) => Backed(seen, code)
       case _ => true
  }

  ghost predicate TruthInv(s: State, seen: set<Effect>) {
    && ActorsBacked(s, seen)
    && (forall code :: Inspected(code) in seen ==> ContainerGone in seen)
    && (PastStopping(s.monitor) ==> s.stopTried || ContainerGone in seen)
  }

  function Added(es: seq<Effect>): set<Effect> {
    set e | e in es
  }

  lemma MonitorStepTruth(c: Config, s: State, a: Action, seen: set<Effect>)
    requires MonitorStep(a) && Enabled(c, s, a) && TruthInv(s, seen)
    ensures TruthInv(Apply(c, s, a), seen + Added(Emits(c, s, a)))
  {
    var es := Emits(c, s, a);
    assert es != [] ==> es[0] in Added(es);
  }

  /** LaunchTask inspects nothing, and touches nothing that an exit code is in. */
  ghost predicate CodesUntouched(s: State, s': State, es: seq<Effect>) {
    && s'.exitCode == s.exitCode && s'.loop == s.loop && s'.stopTried == s.stopTried
    && (s'.monitor == s.monitor || s'.monitor.Backoff?)
    && |es| <= 1 && (es != [] ==> !es[0].Inspected? && !es[0].ContainerGone?)
  }

  lemma StageDoneCodes(c: Config, s: State)
    requires s.launch.Doing?
    ensures CodesUntouched(s, StageDone(c, s), [])
  {
  }

  lemma LaunchStepCodes(c: Config, s: State, a: Action)
    requires LaunchStep(a) && Enabled(c, s, a)
    ensures CodesUntouched(s, Apply(c, s, a), Emits(c, s, a))
  {
    match a
    case StagePasses(_) => StageDoneCodes(c, s);
    case CredsPass(id, vars, expiry) => StageDoneCodes(c, s.(lease := Some(Lease(id, c.role, vars, expiry))));
    case TtlPass(id, expiry) => StageDoneCodes(c, s.(lease := Some(s.lease.value.(id := id, expiry := expiry))));
    case _ =>
  }

  lemma UntouchedKeepsTruth(s: State, s': State, es: seq<Effect>, seen: set<Effect>)
    requires CodesUntouched(s, s', es) && TruthInv(s, seen)
    ensures TruthInv(s', seen + Added(es))
  {
  }

  lemma OtherStepTruth(c: Config, s: State, a: Action, seen: set<Effect>)
    requires !MonitorStep(a) && !LaunchStep(a) && Enabled(c, s, a) && TruthInv(s, seen)
    ensures TruthInv(Apply(c, s, a), seen + Added(Emits(c, s, a)))
  {
    var es := Emits(c, s, a);
    assert es != [] ==> es[0] in Added(es);
  }

  lemma {:induction false} TruthHolds(c: Config, tr: seq<Action>)
    requires Valid(c, tr)
    ensures TruthInv(After(c, tr), Seen(After(c, tr).log))
  {
    if tr != [] {
      var s, a := After(c, Front(tr)), Last(tr);
      TruthHolds(c, Front(tr));
      if MonitorStep(a) {
        MonitorStepTruth(c, s, a, Seen(s.log));
      } else if LaunchStep(a) {
        LaunchStepCodes(c, s, a);
        UntouchedKeepsTruth(s, Apply(c, s, a), Emits(c, s, a), Seen(s.log));
      } else {
        OtherStepTruth(c, s, a, Seen(s.log));
      }
      assert Seen(s.log + Emits(c, s, a)) == Seen(s.log) + Added(Emits(c, s, a));
    }
  }

  // ----- The WaitGroup and the lease -----

  /** The monitor has done Add and not yet Done. */
  predicate Counted(m: Monitor) {
    !m.Absent? && !m.Backoff? && !m.Over?
  }

  ghost predicate CountInv(s: State) {
    && s.waitCount == (if Counted(s.monitor) then 1 else 0)
    && (s.kills != map[] || s.signal.AtWaitGroup? ==> s.launch.Launched?)
    && (s.launch.Launched? <==> !s.monitor.Absent?)
  }

  lemma MonitorStepCount(c: Config, s: State, a: Action)
    requires MonitorStep(a) && Enabled(c, s, a) && CountInv(s)
    ensures CountInv(Apply(c, s, a))
  {
  }

  lemma LaunchStepCount(c: Config, s: State, a: Action)
    requires LaunchStep(a) && Enabled(c, s, a) && CountInv(s)
    ensures CountInv(Apply(c, s, a))
  {
  }

  lemma OtherStepCount(c: Config, s: State, a: Action)
    requires !LaunchStep(a) && !MonitorStep(a) && Enabled(c, s, a) && CountInv(s)
    ensures CountInv(Apply(c, s, a))
  {
  }

  lemma {:induction false} CountHolds(c: Config, tr: seq<Action>)
    requires Valid(c, tr)
    ensures CountInv(After(c, tr))
  {
    if tr != [] {
      CountHolds(c, Front(tr));
      if MonitorStep(Last(tr)) {
        MonitorStepCount(c, After(c, Front(tr)), Last(tr));
      } else if LaunchStep(Last(tr)) {
        LaunchStepCount(c, After(c, Front(tr)), Last(tr));
      } else {
        OtherStepCount(c, After(c, Front(tr)), Last(tr));
      }
    }
  }

  predicate AboutLease(e: Effect) {
    e.Leased? || e.Renewed?
  }

  /** `lease` is what was granted, as renewed: Vars and Role are those of the grant. */
  ghost predicate LeaseIs(c: Config, log: seq<Effect>, lease: Option<Lease>, renewed: bool) {
    match lease
    case None => Pick(log, AboutLease) == [] && !renewed
    case Some(now) =>
      exists granted: Lease ::
        && granted.role == now.role == c.role && granted.vars == now.vars
        && if renewed then Pick(log, AboutLease) == [Leased(granted), Renewed(now.id, now.expiry)]
           else granted == now && Pick(log, AboutLease) == [Leased(now)]
  }

  predicate BeforeCreds(launch: Launch) {
    launch.Idle? || launch == Doing(Pull) || launch == Doing(Creds)
  }

  ghost predicate LeaseInv(c: Config, s: State) {
    && (exists renewed :: LeaseIs(c, s.log, s.lease, renewed))
    && (BeforeCreds(s.launch) ==> s.lease.None?)
    && (s.launch == Doing(Ttl) ==> s.lease.Some? && LeaseIs(c, s.log, s.lease, false))
  }

  /** What a step other than the two that get a lease does about it. */
  ghost predicate LeaseUntouched(c: Config, s: State, s': State, es: seq<Effect>) {
    && |es| <= 1 && s'.log == s.log + es && s'.lease == s.lease
    && (es != [] ==> !AboutLease(es[0]))
    && (BeforeCreds(s'.launch) ==> BeforeCreds(s.launch))
    && (s'.launch == Doing(Ttl) ==> s.launch == Doing(Ttl))
  }

  lemma LaunchStepLease(c: Config, s: State, a: Action)
    requires LaunchStep(a) && !a.CredsPass? && !a.TtlPass? && Enabled(c, s, a)
    ensures LeaseUntouched(c, s, Apply(c, s, a), Emits(c, s, a))
  {
  }

  lemma MonitorStepLease(c: Config, s: State, a: Action)
    requires MonitorStep(a) && Enabled(c, s, a)
    ensures LeaseUntouched(c, s, Apply(c, s, a), Emits(c, s, a))
  {
  }

  lemma OtherStepLease(c: Config, s: State, a: Action)
    requires !LaunchStep(a) && !MonitorStep(a) && Enabled(c, s, a)
    ensures LeaseUntouched(c, s, Apply(c, s, a), Emits(c, s, a))
  {
  }

  lemma UntouchedKeepsLease(c: Config, s: State, s': State, es: seq<Effect>)
    requires LeaseUntouched(c, s, s', es) && LeaseInv(c, s)
    ensures LeaseInv(c, s')
  {
    if es == [] {
      assert s'.log == s.log;
    } else {
      assert es == [es[0]];
      PickOne(s.log, es[0], AboutLease);
    }
    var renewed :| LeaseIs(c, s.log, s.lease, renewed);
    assert LeaseIs(c, s'.log, s'.lease, renewed);
  }

  lemma CredsKeepLease(c: Config, s: State, a: Action)
    requires a.CredsPass? && Enabled(c, s, a) && LeaseInv(c, s)
    ensures LeaseInv(c, Apply(c, s, a))
  {
    var s', granted := Apply(c, s, a), Lease(a.id, c.role, a.vars, a.expiry);
    assert s'.lease == Some(granted) && s'.log == s.log + [Leased(granted)] && !BeforeCreds(s'.launch);
    FirstLease(c, s, s', granted);
  }

  lemma FirstLease(c: Config, s: State, s': State, granted: Lease)
    requires LeaseInv(c, s) && s.lease.None? && granted.role == c.role
    requires s'.lease == Some(granted) && s'.log == s.log + [Leased(granted)] && !BeforeCreds(s'.launch)
    ensures LeaseInv(c, s')
  {
    var renewed :| LeaseIs(c, s.log, s.lease, renewed);
    PickOne(s.log, Leased(granted), AboutLease);
    assert LeaseIs(c, s'.log, s'.lease, false);
  }

  lemma TtlKeepsLease(c: Config, s: State, a: Action)
    requires a.TtlPass? && Enabled(c, s, a) && LeaseInv(c, s)
    ensures LeaseInv(c, Apply(c, s, a))
  {
    PickOne(s.log, Emits(c, s, a)[0], AboutLease);
    var s' := Apply(c, s, a);
    assert LeaseIs(c, s.log, s.lease, false);
    assert LeaseIs(c, s'.log, s'.lease, true);
  }

  lemma {:induction false} LeaseHolds(c: Config, tr: seq<Action>)
    requires Valid(c, tr)
    ensures LeaseInv(c, After(c, tr))
  {
    if tr == [] {
      assert LeaseIs(c, [], None, false);
    } else {
      LeaseHolds(c, Front(tr));
      var s, a := After(c, Front(tr)), Last(tr);
      if a.CredsPass? {
        CredsKeepLease(c, s, a);
      } else if a.TtlPass? {
        TtlKeepsLease(c, s, a);
      } else {
        if LaunchStep(a) {
          LaunchStepLease(c, s, a);
        } else if MonitorStep(a) {
          MonitorStepLease(c, s, a);
        } else {
          OtherStepLease(c, s, a);
        }
        UntouchedKeepsLease(c, s, Apply(c, s, a), Emits(c, s, a));
      }
    }
  }
}
