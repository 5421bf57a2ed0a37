/** The reconnect loop of Run: when it ends, how, and after how many subscriptions. */
module RunSafety {
  import opened Options
  import opened Arithmetic
  import opened DriverProtocol
  import SessionSafety

  /** How many times SUBSCRIBE was sent. */
  ghost function Subscriptions(tr: seq<Action>): nat {
    if tr == [] then 0 else Subscriptions(Front(tr)) + if Last(tr).Subscribe? then 1 else 0
  }

  lemma {:induction false} SubscriptionsGrow(tr: seq<Action>, longer: seq<Action>)
    requires tr <= longer
    ensures Subscriptions(tr) <= Subscriptions(longer)
    ensures tr < longer && Last(longer).Subscribe? ==> Subscriptions(tr) < Subscriptions(longer)
  {
    if tr != longer {
      SubscriptionsGrow(tr, Front(longer));
    } else {
      assert tr == longer;
    }
  }

  /** How many subscriptions failed in a row, up to now. */
  ghost function FailuresInARow(tr: seq<Action>): nat {
    if tr == [] then 0
    else
      match Last(tr)
      case SubscribeFailed => FailuresInARow(Front(tr)) + 1
      case EndSession => 0
      case _ => FailuresInARow(Front(tr))
  }

  // ----- Being told to stop, and the clock -----

  lemma StopStep(c: Config, s: State, a: Action)
    requires Enabled(c, s, a)
    ensures Apply(c, s, a).stopped <==> s.stopped || a.Stop? || (a.Handles? && a.event.Shutdown?)
  {
  }

  /** The quit channel is closed exactly if Stop was called or a SHUTDOWN event was handled. */
  lemma {:induction false} StoppedExactlyIf(c: Config, tr: seq<Action>)
    requires Valid(c, tr)
    ensures After(c, tr).stopped
            <==> exists i :: 0 <= i < |tr| && (tr[i].Stop? || (tr[i].Handles? && tr[i].event.Shutdown?))
  {
    if tr != [] {
      var p := Front(tr);
      StoppedExactlyIf(c, p);
      StopStep(c, After(c, p), Last(tr));
      assert forall i :: 0 <= i < |p| ==> p[i] == tr[i];
      assert tr[|p|] == Last(tr);
    }
  }

  ghost function Elapsed(tr: seq<Action>): nat {
    if tr == [] then 0 else Elapsed(Front(tr)) + if Last(tr).Tick? then Last(tr).elapsed else 0
  }

  lemma TickStep(c: Config, s: State, a: Action)
    requires Enabled(c, s, a)
    ensures Apply(c, s, a).now == s.now + if a.Tick? then a.elapsed else 0
  {
  }

  lemma {:induction false} ClockAddsUp(c: Config, tr: seq<Action>)
    requires Valid(c, tr)
    ensures After(c, tr).now == c.start + Elapsed(tr)
  {
    if tr != [] {
      ClockAddsUp(c, Front(tr));
      TickStep(c, After(c, Front(tr)), Last(tr));
    }
  }

  // ----- How Run ends -----

  /** Before step `k`, Run is past the test of the quit channel and has not yet decided. */
  ghost predicate JudgingAt(c: Config, tr: seq<Action>, k: nat) {
    k <= |tr| && Valid(c, tr[..k]) && After(c, tr[..k]).phase.Judging?
  }

  /** At step `i` Run saw that it was not stopped, and it has taken no other step up to `j`. */
  ghost predicate SawRunning(c: Config, tr: seq<Action>, i: nat, j: nat) {
    && i < j <= |tr| && tr[i].SeeRunning?
    && Valid(c, tr[..i]) && !After(c, tr[..i]).stopped
    && forall k :: i < k <= j ==> JudgingAt(c, tr, k)
  }

  /** At step `i` Run saw that it was not stopped; at step `j`, its next one, it gave up. */
  ghost predicate GaveUp(c: Config, tr: seq<Action>, i: nat, j: nat) {
    && SawRunning(c, tr, i, j) && j < |tr| && tr[j].Judge?
    && Valid(c, tr[..j])
    && After(c, tr[..j]).now - LastContact(c, tr[..j]) > c.recoveryTimeout
  }

  /** When the last session ended, or when Run started if none has. */
  ghost function LastContact(c: Config, tr: seq<Action>): int
    requires Valid(c, tr)
  {
    if tr == [] then c.start
    else if Last(tr).EndSession? then After(c, Front(tr)).now
    else LastContact(c, Front(tr))
  }

  lemma DisconnectedStep(c: Config, s: State, a: Action)
    requires Enabled(c, s, a)
    ensures Apply(c, s, a).disconnected == if a.EndSession? then s.now else s.disconnected
  {
  }

  lemma {:induction false} DisconnectedIsLastContact(c: Config, tr: seq<Action>)
    requires Valid(c, tr)
    ensures After(c, tr).disconnected == LastContact(c, tr)
  {
    if tr != [] {
      DisconnectedIsLastContact(c, Front(tr));
      DisconnectedStep(c, After(c, Front(tr)), Last(tr));
    }
  }

  lemma EntersJudging(c: Config, s: State, a: Action)
    requires Enabled(c, s, a) && Apply(c, s, a).phase.Judging?
    ensures s.phase.Judging? || (a.SeeRunning? && !s.stopped)
  {
  }

  lemma SawRunningInPrefix(c: Config, tr: seq<Action>, n: nat, i: nat, j: nat)
    requires n <= |tr| && SawRunning(c, tr[..n], i, j)
    ensures SawRunning(c, tr, i, j)
  {
    assert tr[..n][..i] == tr[..i];
    forall k | i < k <= j ensures JudgingAt(c, tr, k) {
      assert JudgingAt(c, tr[..n], k) && tr[..n][..k] == tr[..k];
    }
  }

  /** Whoever is past the test passed it in this round, and has done nothing since. */
  lemma {:induction false} JudgingWasRunning(c: Config, tr: seq<Action>)
    requires Valid(c, tr) && After(c, tr).phase.Judging?
    ensures exists i: nat :: SawRunning(c, tr, i, |tr|)
  {
    var p := Front(tr);
    EntersJudging(c, After(c, p), Last(tr));
    assert tr[..|p|] == p && tr[..|tr|] == tr;
    assert JudgingAt(c, tr, |tr|);
    if !After(c, p).phase.Judging? {
      assert SawRunning(c, tr, |p|, |tr|);
    } else {
      JudgingWasRunning(c, p);
      var i: nat :| SawRunning(c, p, i, |p|);
      SawRunningInPrefix(c, tr, |p|, i, |p|);
      assert SawRunning(c, tr, i, |tr|);
    }
  }

  /** Only the test of the elapsed time ends Run with an error. */
  lemma EndsInError(c: Config, s: State, a: Action)
    requires Enabled(c, s, a) && Apply(c, s, a).phase == Ended(true)
    ensures s.phase == Ended(true)
            || (a.Judge? && s.phase.Judging? && c.checkpoint && s.now - s.disconnected > c.recoveryTimeout)
  {
  }

  /**
   An error return means: checkpointing is on, Run had seen in the same round
   that it was not told to stop, and more than RecoveryTimeout had passed since
   the last contact.
   */
  lemma {:induction false} ErrorReturn(c: Config, tr: seq<Action>)
    requires Valid(c, tr) && After(c, tr).phase == Ended(true)
    ensures c.checkpoint && exists i: nat, j: nat :: GaveUp(c, tr, i, j)
  {
    var p := Front(tr);
    EndsInError(c, After(c, p), Last(tr));
    assert tr[..|p|] == p;
    if After(c, p).phase == Ended(true) {
      ErrorReturn(c, p);
      var i: nat, j: nat :| GaveUp(c, p, i, j);
      SawRunningInPrefix(c, tr, |p|, i, j);
      assert tr[..j] == p[..j];
      assert GaveUp(c, tr, i, j);
    } else {
      JudgingWasRunning(c, p);
      var i: nat :| SawRunning(c, p, i, |p|);
      SawRunningInPrefix(c, tr, |p|, i, |p|);
      DisconnectedIsLastContact(c, p);
      assert GaveUp(c, tr, i, |p|);
    }
  }

  /** At step `i` Run saw that it was told to stop. */
  ghost predicate SawStopped(c: Config, tr: seq<Action>, i: nat) {
    i < |tr| && tr[i].SeeStopped? && Valid(c, tr[..i]) && After(c, tr[..i]).stopped
  }

  lemma EndsInNil(c: Config, s: State, a: Action)
    requires Enabled(c, s, a)
    ensures s.phase.Ended? ==> Apply(c, s, a).phase == s.phase
    ensures Apply(c, s, a).phase == Ended(false) ==>
              s.phase == Ended(false) || (a.SeeStopped? && s.stopped) || !c.checkpoint
  {
  }

  lemma {:induction false} EndedForGood(c: Config, tr: seq<Action>, i: nat)
    requires Valid(c, tr) && i <= |tr| && Valid(c, tr[..i]) && After(c, tr[..i]).phase.Ended?
    ensures After(c, tr).phase == After(c, tr[..i]).phase
    decreases |tr|
  {
    if i == |tr| {
      assert tr[..i] == tr;
    } else {
      assert Front(tr)[..i] == tr[..i];
      EndedForGood(c, Front(tr), i);
      EndsInNil(c, After(c, Front(tr)), Last(tr));
    }
  }

  lemma {:induction false} NilReturnStopped(c: Config, tr: seq<Action>)
    requires Valid(c, tr) && c.checkpoint && After(c, tr).phase == Ended(false)
    ensures exists i: nat :: SawStopped(c, tr, i)
  {
    var p := Front(tr);
    EndsInNil(c, After(c, p), Last(tr));
    assert tr[..|p|] == p;
    if After(c, p).phase == Ended(false) {
      NilReturnStopped(c, p);
      var i: nat :| SawStopped(c, p, i);
      assert tr[..i] == p[..i] && SawStopped(c, tr, i);
    } else {
      assert SawStopped(c, tr, |p|);
    }
  }

  /** Run returns without an error exactly if it saw that it was told to stop, or checkpointing is off. */
  lemma NilReturn(c: Config, tr: seq<Action>)
    requires Valid(c, tr) && After(c, tr).phase.Ended?
    ensures After(c, tr).phase == Ended(false) <==> !c.checkpoint || exists i: nat :: SawStopped(c, tr, i)
  {
    if !c.checkpoint {
      SingleSubscription(c, tr);
    } else if After(c, tr).phase == Ended(false) {
      NilReturnStopped(c, tr);
    } else if i: nat :| SawStopped(c, tr, i) {
      StepTaken(c, tr, i);
      EndedForGood(c, tr, i + 1);
    }
  }

  /**
   What Run decides, once it was seen not to be stopped: without checkpointing it
   returns, more than RecoveryTimeout after the last contact it gives up, and else
   it waits for the notifier.
   */
  lemma JudgeDecides(c: Config, tr: seq<Action>, j: nat)
    requires Valid(c, tr) && j < |tr| && tr[j].Judge? && Valid(c, tr[..j]) && Valid(c, tr[..j + 1])
    ensures var late := After(c, tr[..j]).now - LastContact(c, tr[..j]) > c.recoveryTimeout;
            && (After(c, tr[..j + 1]).phase == Ended(false) <==> !c.checkpoint)
            && (After(c, tr[..j + 1]).phase == Ended(true) <==> c.checkpoint && late)
            && (After(c, tr[..j + 1]).phase.Waiting? <==> c.checkpoint && !late)
  {
    StepTaken(c, tr, j);
    DisconnectedIsLastContact(c, tr[..j]);
  }

  /** Run has not yet sent the SUBSCRIBE of this round of its loop. */
  predicate BeforeSubscribe(ph: Phase) {
    ph.Ready? || ph.TasksRead? || ph.UpdatesRead? || ph.Waiting?
  }

  ghost predicate Single(s: State, subscriptions: nat) {
    && subscriptions == (if BeforeSubscribe(s.phase) then 0 else 1)
    && !s.phase.Waiting?
    && s.phase != Ended(true)
  }

  lemma SingleStep(c: Config, s: State, a: Action, n: nat)
    requires Enabled(c, s, a) && !c.checkpoint && Single(s, n)
    ensures Single(Apply(c, s, a), n + if a.Subscribe? then 1 else 0)
  {
  }

  lemma {:induction false} SingleHolds(c: Config, tr: seq<Action>)
    requires Valid(c, tr) && !c.checkpoint
    ensures Single(After(c, tr), Subscriptions(tr))
  {
    if tr != [] {
      SingleHolds(c, Front(tr));
      SingleStep(c, After(c, Front(tr)), Last(tr), Subscriptions(Front(tr)));
    }
  }

  /** Without checkpointing Run subscribes at most once; it returns, without an error, after doing so. */
  lemma SingleSubscription(c: Config, tr: seq<Action>)
    requires Valid(c, tr) && !c.checkpoint
    ensures Subscriptions(tr) <= 1
    ensures After(c, tr).phase.Ended? ==> Subscriptions(tr) == 1 && !After(c, tr).phase.error
  {
    SingleHolds(c, tr);
  }

  /** How many more SUBSCRIBE a stopped driver can send. */
  ghost function Pending(s: State): nat {
    if BeforeSubscribe(s.phase) || s.phase.Judging? then 1 else 0
  }

  lemma StoppedStep(c: Config, s: State, a: Action)
    requires Enabled(c, s, a) && s.stopped
    ensures var s' := Apply(c, s, a);
            s'.stopped && Pending(s') + (if a.Subscribe? then 1 else 0) <= Pending(s)
  {
  }

  lemma {:induction false} StoppedForGood(c: Config, tr: seq<Action>, i: nat)
    requires Valid(c, tr) && i <= |tr| && Valid(c, tr[..i]) && After(c, tr[..i]).stopped
    ensures After(c, tr).stopped
    ensures Subscriptions(tr) + Pending(After(c, tr)) <= Subscriptions(tr[..i]) + 1
    decreases |tr|
  {
    if i == |tr| {
      assert tr[..i] == tr;
    } else {
      assert Front(tr)[..i] == tr[..i];
      StoppedForGood(c, Front(tr), i);
      StoppedStep(c, After(c, Front(tr)), Last(tr));
    }
  }

  /** Once the driver is stopped, at most one more SUBSCRIBE is sent. */
  lemma OneSubscribeAfterStop(c: Config, tr: seq<Action>, i: nat)
    requires Valid(c, tr) && i <= |tr| && Valid(c, tr[..i]) && After(c, tr[..i]).stopped
    ensures Subscriptions(tr) <= Subscriptions(tr[..i]) + 1
  {
    StoppedForGood(c, tr, i);
  }

  // ----- A stopped Run ends -----

  /** The steps of Run and its event loop, other than taking what the decoder offers. */
  predicate RunStep(a: Action) {
    match a
    case ReadTasks(_) | ReadUpdates(_) | Subscribe(_, _) | SubscribeFailed | Connected | LoopQuit => true
    case EndSession | SeeStopped | SeeRunning | Judge | Wake => true
    case _ => false
  }

  ghost function RunSteps(tr: seq<Action>): nat {
    if tr == [] then 0 else RunSteps(Front(tr)) + if RunStep(Last(tr)) then 1 else 0
  }

  /** How many steps a stopped Run has left, at most. */
  ghost function StepsLeft(s: State): (left: nat)
    ensures left <= 9
  {
    match s.phase
    case Judging => 9
    case Waiting(_) => 8
    case Ready => 7
    case TasksRead(_) => 6
    case UpdatesRead(_, _) => 5
    case Sent => 4
    case InLoop => if LoopActive(s) then 3 else 2
    case Checking => 1
    case Ended(_) => 0
  }

  lemma StoppedStepsDown(c: Config, s: State, a: Action)
    requires Enabled(c, s, a) && s.stopped
    ensures var s' := Apply(c, s, a);
            s'.stopped && StepsLeft(s') + (if RunStep(a) then 1 else 0) <= StepsLeft(s)
  {
  }

  lemma {:induction false} StepsAfterStop(c: Config, tr: seq<Action>, i: nat)
    requires Valid(c, tr) && i <= |tr| && Valid(c, tr[..i]) && After(c, tr[..i]).stopped
    ensures After(c, tr).stopped
    ensures RunSteps(tr) + StepsLeft(After(c, tr)) <= RunSteps(tr[..i]) + StepsLeft(After(c, tr[..i]))
    decreases |tr|
  {
    if i == |tr| {
      assert tr[..i] == tr;
    } else {
      assert Front(tr)[..i] == tr[..i];
      StepsAfterStop(c, Front(tr), i);
      StoppedStepsDown(c, After(c, Front(tr)), Last(tr));
    }
  }

  /** Once the notifier's pause is over, some step of Run is possible. */
  ghost predicate CanMove(c: Config, s: State) {
    exists a :: RunStep(a) && Enabled(c, Apply(c, s, Tick(c.minWait)), a)
  }

  lemma WaitStep(c: Config, s: State, a: Action)
    requires Enabled(c, s, a) && (s.phase.Waiting? ==> s.phase.since <= s.now)
    ensures var s' := Apply(c, s, a);
            s'.phase.Waiting? ==> s'.phase.since <= s'.now
  {
  }

  /** The clock does not run backwards. */
  lemma {:induction false} WaitsSinceThen(c: Config, tr: seq<Action>)
    requires Valid(c, tr)
    ensures After(c, tr).phase.Waiting? ==> After(c, tr).phase.since <= After(c, tr).now
  {
    if tr != [] {
      WaitsSinceThen(c, Front(tr));
      WaitStep(c, After(c, Front(tr)), Last(tr));
    }
  }

  lemma WaitingCanMove(c: Config, s: State)
    requires s.phase.Waiting? && s.phase.since <= s.now
    ensures CanMove(c, s)
  {
    assert Enabled(c, Apply(c, s, Tick(c.minWait)), Wake);
  }

  lemma UnlessWaiting(c: Config, tr: seq<Action>)
    requires Valid(c, tr) && !After(c, tr).phase.Ended? && !After(c, tr).phase.Waiting?
    requires After(c, tr).stopped || !LoopActive(After(c, tr))
    ensures CanMove(c, After(c, tr))
  {
    var s := Apply(c, After(c, tr), Tick(c.minWait));
    SessionSafety.SessionsInvHolds(c, tr);
    match s.phase
    case Ready =>
      var tasks := SnapshotExists(s.tasks, s.tasks.Keys);
      SnapshotLists(tasks, s.tasks);
      assert Enabled(c, s, ReadTasks(tasks));
    case TasksRead(_) =>
      var updates := SnapshotExists(s.updates, s.updates.Keys);
      SnapshotLists(updates, s.updates);
      assert Enabled(c, s, ReadUpdates(updates));
    case UpdatesRead(tasks, updates) => assert Enabled(c, s, Subscribe(tasks, updates));
    case Sent => assert Enabled(c, s, SubscribeFailed);
    case InLoop => assert Enabled(c, s, if LoopActive(s) then LoopQuit else EndSession);
    case Checking => assert Enabled(c, s, if s.stopped then SeeStopped else SeeRunning);
    case Judging => assert Enabled(c, s, Judge);
  }

  /** Only the notifier's pause, and in the event loop the decoder, can hold Run up. */
  lemma RunCanMove(c: Config, tr: seq<Action>)
    requires Valid(c, tr) && !After(c, tr).phase.Ended?
    requires After(c, tr).stopped || !LoopActive(After(c, tr))
    ensures CanMove(c, After(c, tr))
  {
    if After(c, tr).phase.Waiting? {
      WaitsSinceThen(c, tr);
      WaitingCanMove(c, After(c, tr));
    } else {
      UnlessWaiting(c, tr);
    }
  }

  /**
   A stopped Run takes at most nine more steps, besides taking what decoders still
   offer it; and until it has ended it can always take one, once the notifier lets it.
   */
  lemma StoppedRunEnds(c: Config, tr: seq<Action>, i: nat)
    requires Valid(c, tr) && i <= |tr| && Valid(c, tr[..i]) && After(c, tr[..i]).stopped
    ensures RunSteps(tr) <= RunSteps(tr[..i]) + 9
    ensures !After(c, tr).phase.Ended? ==> CanMove(c, After(c, tr))
  {
    StepsAfterStop(c, tr, i);
    if !After(c, tr).phase.Ended? {
      RunCanMove(c, tr);
    }
  }

  // ----- How many subscriptions can fail in a row -----

  /** The pauses between failures add up, from the last contact on. */
  ghost predicate Paced(c: Config, s: State, failures: nat) {
    var d := c.minWait;
    match s.phase
    case Ready => s.now - s.disconnected >= failures * d && (failures - 2) * d <= c.recoveryTimeout - d
    case TasksRead(_) => s.now - s.disconnected >= failures * d && (failures - 2) * d <= c.recoveryTimeout - d
    case UpdatesRead(_, _) => s.now - s.disconnected >= failures * d && (failures - 2) * d <= c.recoveryTimeout - d
    case Sent => s.now - s.disconnected >= failures * d && (failures - 2) * d <= c.recoveryTimeout - d
    case InLoop => (failures - 2) * d <= c.recoveryTimeout - d
    case Waiting(since) =>
      && since <= s.now && since - s.disconnected >= (failures - 1) * d
      && (failures - 1) * d <= c.recoveryTimeout
    case _ =>
      && s.now - s.disconnected >= (failures - 1) * d
      && (failures - 2) * d <= c.recoveryTimeout
  }

  ghost function FailuresAfter(n: nat, a: Action): nat {
    if a.SubscribeFailed? then n + 1 else if a.EndSession? then 0 else n
  }

  lemma PacedStep(c: Config, s: State, a: Action, n: nat)
    requires Enabled(c, s, a) && Paced(c, s, n)
    ensures Paced(c, Apply(c, s, a), FailuresAfter(n, a))
  {
    Spread(n, c.minWait);
    Spread(FailuresAfter(n, a), c.minWait);
  }

  lemma {:induction false} FailuresArePaced(c: Config, tr: seq<Action>)
    requires Valid(c, tr)
    ensures Paced(c, After(c, tr), FailuresInARow(tr))
  {
    if tr == [] {
      Spread(0, c.minWait);
    } else {
      FailuresArePaced(c, Front(tr));
      PacedStep(c, After(c, Front(tr)), Last(tr), FailuresInARow(Front(tr)));
    }
  }

  /** With pauses of at least d, at most floor(RecoveryTimeout / d) + 2 subscriptions fail in a row. */
  lemma FailuresAreBounded(c: Config, tr: seq<Action>)
    requires Valid(c, tr) && c.minWait > 0
    ensures FailuresInARow(tr) <= c.recoveryTimeout / c.minWait + 2
  {
    FailuresArePaced(c, tr);
    var n: int := FailuresInARow(tr);
    Spread(n, c.minWait);
    Quotient(n - 2, c.minWait, c.recoveryTimeout);
  }

  /** One round that fails, before anything was launched. */
  const FAILURE: seq<Action> := [ReadTasks([]), ReadUpdates([]), Subscribe([], []), SubscribeFailed]

  /** `n` failures, the notifier letting Run go as early as it may. */
  ghost function FailingRun(c: Config, n: nat): seq<Action> {
    if n == 0 then []
    else if n == 1 then FAILURE
    else FailingRun(c, n - 1) + [SeeRunning] + [Judge] + [Tick(c.minWait)] + [Wake] + FAILURE
  }

  lemma {:induction false} FailingRunIsARun(c: Config, n: nat)
    requires c.checkpoint && n >= 1 && (n - 2) * c.minWait <= c.recoveryTimeout
    ensures var tr := FailingRun(c, n);
            && Valid(c, tr) && FailuresInARow(tr) == n
            && After(c, tr) == Init(c).(phase := Checking, now := c.start + (n - 1) * c.minWait)
  {
    if n == 1 {
      FailOnce(c, []);
      assert [] + FAILURE == FAILURE;
    } else {
      Spread(n - 1, c.minWait);
      Scale(n - 3, n - 2, c.minWait);
      FailingRunIsARun(c, n - 1);
      var t := FailingRun(c, n - 1);
      Retry(c, t);
      FailOnce(c, t + [SeeRunning] + [Judge] + [Tick(c.minWait)] + [Wake]);
    }
  }

  /** A step that neither fails nor ends a session leaves the count alone. */
  lemma Same(tr: seq<Action>, a: Action)
    ensures FailuresInARow(tr + [a]) == FailuresAfter(FailuresInARow(tr), a)
  {
    assert Front(tr + [a]) == tr;
  }

  /** Run retries as soon as the notifier lets it. */
  lemma Retry(c: Config, tr: seq<Action>)
    requires Valid(c, tr) && c.checkpoint
    requires var s := After(c, tr);
             s.phase.Checking? && !s.stopped && s.now - s.disconnected <= c.recoveryTimeout
    ensures var t := tr + [SeeRunning] + [Judge] + [Tick(c.minWait)] + [Wake];
            && Valid(c, t) && FailuresInARow(t) == FailuresInARow(tr)
            && After(c, t) == After(c, tr).(phase := Ready, now := After(c, tr).now + c.minWait)
  {
    var t1, t2 := tr + [SeeRunning], tr + [SeeRunning] + [Judge];
    var t3 := t2 + [Tick(c.minWait)];
    Extend(c, tr, SeeRunning);
    Extend(c, t1, Judge);
    Extend(c, t2, Tick(c.minWait));
    Extend(c, t3, Wake);
    Same(tr, SeeRunning);
    Same(t1, Judge);
    Same(t2, Tick(c.minWait));
    Same(t3, Wake);
  }

  lemma FailOnce(c: Config, tr: seq<Action>)
    requires Valid(c, tr) && After(c, tr).phase.Ready?
    requires After(c, tr).tasks == map[] && After(c, tr).updates == map[]
    ensures var t := tr + FAILURE;
            && Valid(c, t) && After(c, t) == After(c, tr).(phase := Checking)
            && FailuresInARow(t) == FailuresInARow(tr) + 1
  {
    var t := tr + [ReadTasks([])] + [ReadUpdates([])] + [Subscribe([], [])];
    SendOnce(c, tr);
    Extend(c, t, SubscribeFailed);
    Same(t, SubscribeFailed);
    assert t + [SubscribeFailed] == tr + FAILURE;
  }

  lemma SendOnce(c: Config, tr: seq<Action>)
    requires Valid(c, tr) && After(c, tr).phase.Ready?
    requires After(c, tr).tasks == map[] && After(c, tr).updates == map[]
    ensures var t := tr + [ReadTasks([])] + [ReadUpdates([])] + [Subscribe([], [])];
            && Valid(c, t) && After(c, t) == After(c, tr).(phase := Sent) && FailuresInARow(t) == FailuresInARow(tr)
  {
    var t1 := tr + [ReadTasks([])];
    var t2 := t1 + [ReadUpdates([])];
    Extend(c, tr, ReadTasks([]));
    Extend(c, t1, ReadUpdates([]));
    Extend(c, t2, Subscribe([], []));
    Same(tr, ReadTasks([]));
    Same(t1, ReadUpdates([]));
    Same(t2, Subscribe([], []));
  }

  /** The bound is met: some run fails exactly that often. */
  lemma BoundIsAttained(c: Config)
    requires c.checkpoint && c.minWait > 0
    ensures exists tr :: Valid(c, tr) && FailuresInARow(tr) == c.recoveryTimeout / c.minWait + 2
  {
    var n := c.recoveryTimeout / c.minWait + 2;
    Quotient(n - 2, c.minWait, c.recoveryTimeout);
    FailingRunIsARun(c, n);
  }
}
