/**
 Which way each goroutine goes, in terms of the steps taken so far: the stages of
 a launch, what makes the looper quit and the monitor's wait end, when the monitor
 stops the container and checks it again, and the order of a kill.
 */
module MonitorPaths {
  import opened Options
  import opened TaskLifecycle
  import opened LifecycleSafety
  import opened ExitCodes
  import opened EarlyReleases

  // ----- The stages of a launch -----

  /** Every stage that this configuration asks for, in order. */
  function AllStages(c: Config): seq<Stage> {
    [Pull]
    + (if c.role == "" then [] else if c.hasTtl then [Creds, Ttl] else [Creds])
    + [Decrypt, Create, Start]
  }

  /** The stages that were passed. */
  ghost function Passed(tr: seq<Action>): seq<Stage> {
    if tr == [] then []
    else
      match Last(tr)
      case StagePasses(stage) => Passed(Front(tr)) + [stage]
      case CredsPass(_, _, _) => Passed(Front(tr)) + [Creds]
      case TtlPass(_, _) => Passed(Front(tr)) + [Ttl]
      case _ => Passed(Front(tr))
  }

  ghost predicate StagesInv(c: Config, launch: Launch, passed: seq<Stage>) {
    match launch
    case Idle => passed == []
    case Doing(stage) => passed + [stage] <= AllStages(c)
    case Launched => passed == AllStages(c)
    case _ => passed < AllStages(c)
  }

  ghost function PassedAfter(passed: seq<Stage>, a: Action): seq<Stage> {
    match a
    case StagePasses(stage) => passed + [stage]
    case CredsPass(_, _, _) => passed + [Creds]
    case TtlPass(_, _) => passed + [Ttl]
    case _ => passed
  }

  /** Where in the list a stage is. */
  function Position(c: Config, stage: Stage): nat {
    match stage
    case Pull => 0
    case Creds => 1
    case Ttl => 2
    case Decrypt => |AllStages(c)| - 3
    case Create => |AllStages(c)| - 2
    case Start => |AllStages(c)| - 1
  }

  lemma StageIsAt(c: Config, stage: Stage, passed: seq<Stage>)
    requires passed + [stage] <= AllStages(c)
    ensures |passed| == Position(c, stage)
  {
    var all := AllStages(c);
    assert all[|passed|] == (passed + [stage])[|passed|];
  }

  lemma NextIsNext(c: Config, stage: Stage, passed: seq<Stage>)
    requires passed + [stage] <= AllStages(c)
    ensures match NextStage(c, stage) {
              case Some(next) => passed + [stage] + [next] <= AllStages(c)
              case None => passed + [stage] == AllStages(c)
            }
  {
    StageIsAt(c, stage, passed);
    var n := |passed|;
    assert AllStages(c)[..n] == passed && AllStages(c)[n] == stage;
  }

  /** What a step of the launch does to its place. */
  lemma LaunchPlaces(c: Config, s: State, a: Action)
    requires LaunchStep(a) && Enabled(c, s, a)
    ensures var launch := Apply(c, s, a).launch;
            match a {
              case LaunchBegins(ok) => s.launch.Idle? && launch == if ok then Doing(Pull) else Idle
              case StagePasses(stage) => s.launch == Doing(stage) && launch == Following(c, stage)
              case CredsPass(_, _, _) => s.launch == Doing(Creds) && launch == Following(c, Creds)
              case TtlPass(_, _) => s.launch == Doing(Ttl) && launch == Following(c, Ttl)
              case StageCrashes => launch == s.launch
              case _ => !s.launch.Idle? && !s.launch.Launched? && !launch.Idle? && !launch.Launched? && !launch.Doing?
            }
  {
  }

  function Following(c: Config, stage: Stage): Launch {
    match NextStage(c, stage)
    case Some(next) => Doing(next)
    case None => Launched
  }

  lemma StagesStep(c: Config, s: State, a: Action, passed: seq<Stage>)
    requires Enabled(c, s, a) && StagesInv(c, s.launch, passed)
    ensures StagesInv(c, Apply(c, s, a).launch, PassedAfter(passed, a))
  {
    if LaunchStep(a) {
      LaunchPlaces(c, s, a);
      if a.StagePasses? || a.CredsPass? || a.TtlPass? {
        NextIsNext(c, s.launch.stage, passed);
      }
    } else if MonitorStep(a) {
      MonitorStepMoves(c, s, a);
    } else {
      OtherStepShowsNothing(c, s, a);
    }
  }

  lemma {:induction false} StagesHold(c: Config, tr: seq<Action>)
    requires Valid(c, tr)
    ensures StagesInv(c, After(c, tr).launch, Passed(tr))
  {
    if tr != [] {
      StagesHold(c, Front(tr));
      StagesStep(c, After(c, Front(tr)), Last(tr), Passed(Front(tr)));
    }
  }

  /** A task is launched exactly if all stages were passed; and they are passed in order. */
  lemma LaunchedExactlyIf(c: Config, tr: seq<Action>)
    requires Valid(c, tr)
    ensures Passed(tr) <= AllStages(c)
    ensures After(c, tr).launch.Launched? <==> Passed(tr) == AllStages(c)
  {
    StagesHold(c, tr);
  }

  // ----- What makes the looper quit -----

  /** Step `i` sets the looper's quit flag. */
  ghost predicate QuitsAt(c: Config, tr: seq<Action>, i: nat) {
    && i < |tr| && Valid(c, tr[..i])
    && match tr[i]
       case BodyStep(o) => o.Gone?
       case RecheckStep(o) => o.Gone?
       case KillQuits(_) => true
       case SignalArrives(usr1) => usr1 && After(c, tr[..i]).launch.Launched?
       case _ => false
  }

  predicate SetsQuit(s: State, a: Action) {
    match a
    case BodyStep(o) => o.Gone?
    case RecheckStep(o) => o.Gone?
    case KillQuits(_) => true
    case SignalArrives(usr1) => usr1 && s.launch.Launched?
    case _ => false
  }

  lemma LaunchLeavesLoop(c: Config, s: State, a: Action)
    requires LaunchStep(a) && Enabled(c, s, a)
    ensures Moves(c, s, a).quit == s.quit && Moves(c, s, a).waitOver == s.waitOver && Moves(c, s, a).loop == s.loop
  {
    if s.launch.Doing? {
      StageLeavesLoop(c, s);
    }
  }

  lemma StageLeavesLoop(c: Config, s: State)
    requires s.launch.Doing?
    ensures forall lease :: var t := StageDone(c, s.(lease := lease));
                            t.quit == s.quit && t.waitOver == s.waitOver && t.loop == s.loop
    ensures var t := StageDone(c, s); t.quit == s.quit && t.waitOver == s.waitOver && t.loop == s.loop
  {
  }

  lemma QuitStep(c: Config, s: State, a: Action)
    requires Enabled(c, s, a)
    ensures Apply(c, s, a).quit <==> s.quit || SetsQuit(s, a)
  {
    if LaunchStep(a) {
      LaunchLeavesLoop(c, s, a);
    }
  }

  /** The quit flag is set exactly if a check saw the container gone, a kill quit, or SIGUSR1 found a looper. */
  lemma {:induction false} QuitExactlyIf(c: Config, tr: seq<Action>)
    requires Valid(c, tr)
    ensures After(c, tr).quit <==> exists i: nat :: QuitsAt(c, tr, i)
  {
    if tr != [] {
      var p := Front(tr);
      QuitExactlyIf(c, p);
      QuitStep(c, After(c, p), Last(tr));
      QuitsAtStep(c, tr);
    }
  }

  lemma QuitsAtStep(c: Config, tr: seq<Action>)
    requires Valid(c, tr) && tr != []
    ensures (exists i: nat :: QuitsAt(c, tr, i))
            <==> (exists i: nat :: QuitsAt(c, Front(tr), i)) || SetsQuit(After(c, Front(tr)), Last(tr))
  {
    QuitsNow(c, tr);
    forall i: nat | i < |tr| - 1 ensures QuitsAt(c, tr, i) <==> QuitsAt(c, Front(tr), i) {
      QuitsBefore(c, tr, i);
    }
  }

  lemma QuitsNow(c: Config, tr: seq<Action>)
    requires Valid(c, tr) && tr != []
    ensures QuitsAt(c, tr, |tr| - 1) <==> SetsQuit(After(c, Front(tr)), Last(tr))
  {
    assert tr[..|tr| - 1] == Front(tr);
  }

  lemma QuitsBefore(c: Config, tr: seq<Action>, i: nat)
    requires i < |tr| - 1
    ensures QuitsAt(c, tr, i) <==> QuitsAt(c, Front(tr), i)
  {
    assert tr[..i] == Front(tr)[..i];
  }

  // ----- What ends the loop, and the monitor's wait -----

  /** A check whose last call turned out like this returns an error. */
  predicate IsError(o: Outcome) {
    match o
    case ListFails | InspectFails => true
    case Inspects(code) => code != 0
    case Polled(unhealthy) => unhealthy
    case _ => false
  }

  /** Whether the check that the loop is in, or was in last, has come to an error. */
  ghost function LoopErred(tr: seq<Action>): bool {
    if tr == [] then false
    else
      match Last(tr)
      case BodyStep(o) => IsError(o)
      case _ => LoopErred(Front(tr))
  }

  /** Step `i` ends the loop. */
  ghost predicate EndsLoopAt(tr: seq<Action>, i: nat) {
    i < |tr| && (tr[i].SeesQuit? || (tr[i].BodyReturns? && LoopErred(tr[..i])))
  }

  /** At step `i` a signal other than SIGUSR1 found a looper. */
  ghost predicate CallsDoneAt(c: Config, tr: seq<Action>, i: nat) {
    i < |tr| && tr[i] == SignalArrives(false) && Valid(c, tr[..i]) && After(c, tr[..i]).launch.Launched?
  }

  ghost predicate LoopInv(s: State, erred: bool, ended: bool, done: bool) {
    && (s.loop.Body? && s.loop.check.Returning? ==> s.loop.check.err == erred)
    && (s.loop.Ended? <==> ended)
    && (s.waitOver <==> ended || done)
    && (BeforeLoop(s.monitor) ==> s.loop.NotStarted?)
  }

  lemma LoopStep(c: Config, s: State, a: Action, erred: bool, ended: bool, done: bool)
    requires Enabled(c, s, a) && LoopInv(s, erred, ended, done)
    requires LaunchStep(a) ==> s.monitor.Absent?
    ensures LoopInv(Moves(c, s, a), if a.BodyStep? then IsError(a.outcome) else erred,
                    ended || a.SeesQuit? || (a.BodyReturns? && erred),
                    done || (a == SignalArrives(false) && s.launch.Launched?))
  {
    if LaunchStep(a) {
      LaunchKeepsLoop(c, s, a, erred, ended, done);
    } else if MonitorStep(a) {
      MonitorKeepsLoop(c, s, a, erred, ended, done);
    } else if a.Iterates? || a.BodyStep? || a.BodyReturns? || a.SeesQuit? {
      LoopItself(c, s, a, erred);
    } else {
      RestAndLoop(c, s, a);
    }
  }

  lemma LaunchKeepsLoop(c: Config, s: State, a: Action, erred: bool, ended: bool, done: bool)
    requires LaunchStep(a) && Enabled(c, s, a) && s.monitor.Absent? && LoopInv(s, erred, ended, done)
    ensures LoopInv(Moves(c, s, a), erred, ended, done)
  {
    LaunchLeavesLoop(c, s, a);
  }

  lemma MonitorKeepsLoop(c: Config, s: State, a: Action, erred: bool, ended: bool, done: bool)
    requires MonitorStep(a) && Enabled(c, s, a) && LoopInv(s, erred, ended, done)
    ensures LoopInv(Moves(c, s, a), erred, ended, done)
  {
    MonitorAndLoop(c, s, a);
  }

  lemma LoopItself(c: Config, s: State, a: Action, erred: bool)
    requires (a.Iterates? || a.BodyStep? || a.BodyReturns? || a.SeesQuit?) && Enabled(c, s, a)
    requires s.loop.Body? && s.loop.check.Returning? ==> s.loop.check.err == erred
    ensures var t, ends := Moves(c, s, a), a.SeesQuit? || (a.BodyReturns? && erred);
            && t.monitor == s.monitor && (t.waitOver <==> s.waitOver || ends)
            && !s.loop.Ended? && !s.loop.NotStarted? && (t.loop.Ended? <==> ends)
            && (t.loop.Body? && t.loop.check.Returning? ==> a.BodyStep? && t.loop.check.err == IsError(a.outcome))
  {
  }

  lemma RestAndLoop(c: Config, s: State, a: Action)
    requires Enabled(c, s, a) && !LaunchStep(a) && !MonitorStep(a)
    requires !a.Iterates? && !a.BodyStep? && !a.BodyReturns? && !a.SeesQuit?
    ensures var t := Moves(c, s, a);
            && t.monitor == s.monitor && t.loop == s.loop
            && (t.waitOver <==> s.waitOver || (a == SignalArrives(false) && s.launch.Launched?))
  {
  }

  /** Of the monitor's steps, only the start of the loop concerns the loop. */
  lemma MonitorAndLoop(c: Config, s: State, a: Action)
    requires MonitorStep(a) && Enabled(c, s, a)
    ensures var t := Moves(c, s, a);
            && t.waitOver == s.waitOver && t.loop == (if a.LoopStarts? then Between else s.loop)
            && (BeforeLoop(t.monitor) ==> BeforeLoop(s.monitor) && !a.LoopStarts?)
            && (a.LoopStarts? ==> BeforeLoop(s.monitor))
  {
  }

  lemma {:induction false} LoopHolds(c: Config, tr: seq<Action>)
    requires Valid(c, tr)
    ensures LoopInv(After(c, tr), LoopErred(tr),
                    exists i: nat :: EndsLoopAt(tr, i), exists i: nat :: CallsDoneAt(c, tr, i))
  {
    if tr != [] {
      var p, a := Front(tr), Last(tr);
      var s := After(c, p);
      LoopHolds(c, p);
      StoryHolds(c, p);
      var ended, done := exists i: nat :: EndsLoopAt(p, i), exists i: nat :: CallsDoneAt(c, p, i);
      if LaunchStep(a) {
        LaunchStepCodes(c, s, a);
        NotLaunched(c, s, a);
      }
      LoopStep(c, s, a, LoopErred(p), ended, done);
      EndsLoopStep(tr);
      CallsDoneStep(c, tr);
    }
  }

  lemma NotLaunched(c: Config, s: State, a: Action)
    requires LaunchStep(a) && Enabled(c, s, a)
    ensures !s.launch.Launched?
  {
  }

  lemma EndsLoopStep(tr: seq<Action>)
    requires tr != []
    ensures var p, a := Front(tr), Last(tr);
            (exists i: nat :: EndsLoopAt(tr, i))
            <==> (exists i: nat :: EndsLoopAt(p, i)) || a.SeesQuit? || (a.BodyReturns? && LoopErred(p))
  {
    var p := Front(tr);
    assert tr[..|p|] == p;
    assert EndsLoopAt(tr, |p|) <==> Last(tr).SeesQuit? || (Last(tr).BodyReturns? && LoopErred(p));
    forall i: nat | i < |p| ensures EndsLoopAt(tr, i) <==> EndsLoopAt(p, i) {
      assert tr[..i] == p[..i] && tr[i] == p[i];
    }
  }

  lemma CallsDoneStep(c: Config, tr: seq<Action>)
    requires Valid(c, tr) && tr != []
    ensures (exists i: nat :: CallsDoneAt(c, tr, i))
            <==> (exists i: nat :: CallsDoneAt(c, Front(tr), i))
                 || (Last(tr) == SignalArrives(false) && After(c, Front(tr)).launch.Launched?)
  {
    CallsDoneNow(c, tr);
    forall i: nat | i < |tr| - 1 ensures CallsDoneAt(c, tr, i) <==> CallsDoneAt(c, Front(tr), i) {
      CallsDoneBefore(c, tr, i);
    }
  }

  lemma CallsDoneNow(c: Config, tr: seq<Action>)
    requires Valid(c, tr) && tr != []
    ensures CallsDoneAt(c, tr, |tr| - 1)
            <==> Last(tr) == SignalArrives(false) && After(c, Front(tr)).launch.Launched?
  {
    assert tr[..|tr| - 1] == Front(tr);
  }

  lemma CallsDoneBefore(c: Config, tr: seq<Action>, i: nat)
    requires i < |tr| - 1
    ensures CallsDoneAt(c, tr, i) <==> CallsDoneAt(c, Front(tr), i)
  {
    assert tr[..i] == Front(tr)[..i];
  }

  /**
   The monitor's wait can end exactly if the loop saw the quit flag, a check of the
   loop returned an error, or a signal other than SIGUSR1 found a looper.
   */
  lemma WaitEndsExactlyIf(c: Config, tr: seq<Action>)
    requires Valid(c, tr)
    ensures After(c, tr).waitOver
            <==> (exists i: nat :: EndsLoopAt(tr, i)) || (exists i: nat :: CallsDoneAt(c, tr, i))
  {
    LoopHolds(c, tr);
  }

  // ----- What the monitor does after its wait -----

  /** At step `i` the monitor's first test found no exit code. */
  ghost predicate FirstUnknown(tr: seq<Action>, i: nat) {
    i < |tr| && tr[i].TestsFirst? && LastReturned(tr[..i]) == UNKNOWN
  }

  /** The same for its second test. */
  ghost predicate SecondUnknown(tr: seq<Action>, i: nat) {
    i < |tr| && tr[i].TestsSecond? && LastReturned(tr[..i]) == UNKNOWN
  }

  ghost predicate FoundNoneFirst(tr: seq<Action>) {
    exists i: nat :: FirstUnknown(tr, i)
  }

  ghost predicate FoundNoneAgain(tr: seq<Action>) {
    exists i: nat :: SecondUnknown(tr, i)
  }

  predicate BeforeFirstTest(m: Monitor) {
    m.Absent? || m.Backoff? || m.Added? || m.InWait? || m.FirstTest?
  }

  predicate BeforeSecondTest(m: Monitor) {
    BeforeFirstTest(m) || m.Stopping? || m.SecondTest?
  }

  /** `first` and `second` are whether the tests found no exit code, `again` whether the monitor's check returned. */
  ghost predicate PathInv(s: State, first: bool, second: bool, again: bool) {
    && (BeforeFirstTest(s.monitor) ==> !first && !s.stopTried)
    && (s.monitor.Stopping? ==> first && !s.stopTried)
    && (!BeforeFirstTest(s.monitor) && !s.monitor.Stopping? ==> (s.stopTried <==> first))
    && (BeforeSecondTest(s.monitor) ==> !second && !again)
    && (s.monitor.Rechecking? ==> second && !again)
    && (!BeforeSecondTest(s.monitor) && !s.monitor.Rechecking? ==> (again <==> second))
  }

  lemma PathStep(c: Config, s: State, a: Action, first: bool, second: bool, again: bool)
    requires MonitorStep(a) && Enabled(c, s, a) && PathInv(s, first, second, again)
    ensures PathInv(Apply(c, s, a), first || (a.TestsFirst? && s.exitCode == UNKNOWN),
                    second || (a.TestsSecond? && s.exitCode == UNKNOWN), again || a.RecheckReturns?)
  {
  }

  lemma AnyPathStep(c: Config, s: State, a: Action, first: bool, second: bool, again: bool)
    requires Enabled(c, s, a) && PathInv(s, first, second, again)
    requires s.launch.Launched? <==> !s.monitor.Absent?
    ensures PathInv(Apply(c, s, a), first || (a.TestsFirst? && s.exitCode == UNKNOWN),
                    second || (a.TestsSecond? && s.exitCode == UNKNOWN), again || a.RecheckReturns?)
  {
    if MonitorStep(a) {
      PathStep(c, s, a, first, second, again);
    } else if LaunchStep(a) {
      NotLaunched(c, s, a);
      LaunchStepCodes(c, s, a);
    } else {
      OtherStepShowsNothing(c, s, a);
    }
  }

  lemma {:induction false} PathHolds(c: Config, tr: seq<Action>)
    requires Valid(c, tr)
    ensures PathInv(After(c, tr), FoundNoneFirst(tr), FoundNoneAgain(tr), RecheckReturns in tr)
  {
    if tr != [] {
      var p, a := Front(tr), Last(tr);
      var s := After(c, p);
      PathHolds(c, p);
      CodesHold(c, p);
      StoryHolds(c, p);
      AnyPathStep(c, s, a, FoundNoneFirst(p), FoundNoneAgain(p), RecheckReturns in p);
      UnknownStep(tr);
      InLonger(tr, RecheckReturns);
    }
  }

  lemma UnknownStep(tr: seq<Action>)
    requires tr != []
    ensures var p, a := Front(tr), Last(tr);
            && (FoundNoneFirst(tr) <==> FoundNoneFirst(p) || (a.TestsFirst? && LastReturned(p) == UNKNOWN))
            && (FoundNoneAgain(tr) <==> FoundNoneAgain(p) || (a.TestsSecond? && LastReturned(p) == UNKNOWN))
  {
    var p := Front(tr);
    assert tr[..|p|] == p;
    assert FirstUnknown(tr, |p|) <==> Last(tr).TestsFirst? && LastReturned(p) == UNKNOWN;
    assert SecondUnknown(tr, |p|) <==> Last(tr).TestsSecond? && LastReturned(p) == UNKNOWN;
    forall i: nat | i < |p|
      ensures FirstUnknown(tr, i) <==> FirstUnknown(p, i)
      ensures SecondUnknown(tr, i) <==> SecondUnknown(p, i)
    {
      assert tr[..i] == p[..i] && tr[i] == p[i];
    }
  }

  /** The monitor has stopped the container, or need not, and checked it again, or need not. */
  predicate MadeSure(m: Monitor) {
    !BeforeSecondTest(m) && !m.Rechecking?
  }

  /**
   When the monitor goes on to clean up, it has tried to stop the container exactly if
   no exit code was known after its wait, and checked the container again exactly if
   none was known after that.
   */
  lemma MakesSureExactlyIf(c: Config, tr: seq<Action>)
    requires Valid(c, tr) && MadeSure(After(c, tr).monitor)
    ensures After(c, tr).stopTried <==> FoundNoneFirst(tr)
    ensures RecheckReturns in tr <==> FoundNoneAgain(tr)
  {
    PathHolds(c, tr);
  }

  // ----- The order of a kill -----

  predicate OfKill(e: Effect, k: nat) {
    match e
    case Drained(j, _) => j == k
    case KillStopped(j) => j == k
    case KillQuit(j) => j == k
    case _ => false
  }

  /** What was done for this kill, in order. */
  ghost function KillLog(log: seq<Effect>, k: nat): seq<Effect> {
    Pick(log, (e: Effect) => OfKill(e, k))
  }

  lemma KillLogStep(log: seq<Effect>, es: seq<Effect>, k: nat)
    requires |es| <= 1
    ensures KillLog(log + es, k) == if es != [] && OfKill(es[0], k) then KillLog(log, k) + es else KillLog(log, k)
  {
    if es == [] {
      assert log + es == log;
    } else {
      assert es == [es[0]];
      PickOne(log, es[0], (e: Effect) => OfKill(e, k));
    }
  }

  /** What a kill has done by the time it is there. */
  function KillStory(k: nat, kill: Kill, cutShort: bool): seq<Effect> {
    match kill
    case Draining => []
    case AtStop => [Drained(k, cutShort)]
    case AtQuit => [Drained(k, cutShort), KillStopped(k)]
    case KillOver => [Drained(k, cutShort), KillStopped(k), KillQuit(k)]
  }

  ghost predicate KillInv(s: State, k: nat, cutShort: bool) {
    KillLog(s.log, k) == if k in s.kills then KillStory(k, s.kills[k], cutShort) else []
  }

  predicate StepOfKill(a: Action, k: nat) {
    match a
    case KillBegins(j) => j == k
    case KillDrained(j, _) => j == k
    case KillStops(j) => j == k
    case KillQuits(j) => j == k
    case _ => false
  }

  /** Only a kill's own steps change its place, and show what it does. */
  lemma NotOfKill(c: Config, s: State, a: Action, k: nat)
    requires Enabled(c, s, a) && !StepOfKill(a, k)
    ensures var s' := Moves(c, s, a);
            (k in s'.kills <==> k in s.kills) && (k in s.kills ==> s'.kills[k] == s.kills[k])
  {
    if MonitorStep(a) {
      MonitorElsewhere(c, s, a);
    } else if LaunchStep(a) {
      LaunchElsewhere(c, s, a);
    }
  }

  lemma ShowsNoKill(c: Config, s: State, a: Action, k: nat)
    requires Enabled(c, s, a) && !StepOfKill(a, k)
    ensures var es := Emits(c, s, a);
            |es| <= 1 && (es != [] ==> !OfKill(es[0], k))
  {
  }

  /** A kill's own steps. */
  lemma OwnStep(c: Config, s: State, a: Action, k: nat, cutShort: bool)
    requires Enabled(c, s, a) && StepOfKill(a, k)
    ensures var s', es := Moves(c, s, a), Emits(c, s, a);
            && |es| <= 1 && (es != [] ==> OfKill(es[0], k)) && k in s'.kills
            && KillStory(k, s'.kills[k], if a.KillDrained? then a.cutShort else cutShort)
               == (if k in s.kills then KillStory(k, s.kills[k], cutShort) else []) + es
  {
  }

  lemma KillStep(c: Config, s: State, a: Action, k: nat, cutShort: bool) returns (now: bool)
    requires Enabled(c, s, a) && KillInv(s, k, cutShort)
    ensures KillInv(Apply(c, s, a), k, now)
  {
    if StepOfKill(a, k) {
      now := if a.KillDrained? then a.cutShort else cutShort;
      OwnStep(c, s, a, k, cutShort);
    } else {
      now := cutShort;
      ShowsNoKill(c, s, a, k);
      NotOfKill(c, s, a, k);
    }
    KillLogStep(s.log, Emits(c, s, a), k);
  }

  lemma {:induction false} KillHolds(c: Config, tr: seq<Action>, k: nat) returns (cutShort: bool)
    requires Valid(c, tr)
    ensures KillInv(After(c, tr), k, cutShort)
  {
    if tr == [] {
      cutShort := false;
    } else {
      cutShort := KillHolds(c, Front(tr), k);
      cutShort := KillStep(c, After(c, Front(tr)), Last(tr), k, cutShort);
    }
  }

  /** Each kill ends its drain, then tries to stop the container, then quits the looper, each once. */
  lemma KillOrder(c: Config, tr: seq<Action>, k: nat)
    requires Valid(c, tr)
    ensures exists cutShort ::
              KillLog(After(c, tr).log, k) <= [Drained(k, cutShort), KillStopped(k), KillQuit(k)]
  {
    var cutShort := KillHolds(c, tr, k);
    if k in After(c, tr).kills {
      StoryIsPrefix(k, After(c, tr).kills[k], cutShort);
    }
    assert KillLog(After(c, tr).log, k) <= [Drained(k, cutShort), KillStopped(k), KillQuit(k)];
  }

  lemma StoryIsPrefix(k: nat, kill: Kill, cutShort: bool)
    ensures KillStory(k, kill, cutShort) <= [Drained(k, cutShort), KillStopped(k), KillQuit(k)]
  {
  }
}
