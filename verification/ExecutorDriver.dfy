/**
 The driver object. Its fields are the ones the program updates in place, and
 `history` is the run of DriverProtocol that these updates amount to: Valid()
 says that the fields are what the protocol says they are after that run, so
 whatever is proved of all runs holds of the object.
 */
module ExecutorDriver {
  import opened Options
  import opened DriverProtocol
  import UpdateSafety
  import SessionSafety
  import RunSafety

  /** What Run has come to when it stops being watched: it may also still be running. */
  datatype Outcome = StillRunning | Done | Aborted

  /**
   Everything a thread cannot decide for itself, by the number of its turn: what
   the other threads do before it moves, which ready case a select picks, what
   the agent replies to SUBSCRIBE.
   */
  datatype Environment = Environment(
    others: nat -> seq<Action>,
    quitFirst: nat -> bool,
    reply: nat -> Option<Err>)

  /** Steps that neither Run nor its event loop takes. */
  predicate Foreign(a: Action) {
    match a
    case BeginSend(_, _) | SendReturned(_, _, _) | Record(_, _) | Stop | Tick(_) => true
    case Decoded(_, _) | DecodeFailed(_, _) | Handles(_, _) | Handled(_) | DecoderQuit(_) => true
    case _ => false
  }

  /** Unless the driver is stopped, what a decoder offers it offers until it is taken. */
  predicate OfferStands(session: DriverProtocol.Session, later: DriverProtocol.Session, stopped: bool) {
    session.decoder.Offering? && !stopped ==> later.decoder == session.decoder
  }

  /** Other threads leave Run where it is, and its event loop going. */
  ghost predicate RunUndisturbed(s: State, t: State) {
    && t.phase == s.phase && t.disconnected == s.disconnected && s.now <= t.now
    && (s.stopped ==> t.stopped)
    && |t.sessions| == |s.sessions|
    && (s.sessions != [] ==> OfferStands(Last(s.sessions), Last(t.sessions), t.stopped))
    && forall k :: 0 <= k < |s.sessions|
         ==> t.sessions[k].loop == s.sessions[k].loop && t.sessions[k].received == s.sessions[k].received
  }

  /** Where a step of Run outside the event loop leads. */
  function PhaseAfter(c: Config, s: State, a: Action): Phase {
    match a
    case ReadTasks(tasks) => TasksRead(tasks)
    case ReadUpdates(updates) => if s.phase.TasksRead? then UpdatesRead(s.phase.tasks, updates) else s.phase
    case Subscribe(_, _) => Sent
    case SubscribeFailed => Checking
    case Connected => InLoop
    case SeeStopped => Ended(false)
    case SeeRunning => Judging
    case Judge => Verdict(c, s.now, s.disconnected)
    case Wake => Ready
    case _ => s.phase
  }

  lemma ForeignStep(c: Config, s: State, a: Action)
    requires Foreign(a) && Enabled(c, s, a)
    ensures RunUndisturbed(s, Apply(c, s, a))
  {
  }

  /** Steps that only the sender of `call` takes. */
  predicate OfSender(a: Action, call: nat) {
    (a.SendReturned? || a.Record?) && a.call == call
  }

  lemma SenderUndisturbed(c: Config, s: State, a: Action, call: nat)
    requires Enabled(c, s, a) && call in s.calls && !OfSender(a, call)
    ensures var s' := Apply(c, s, a);
            call in s'.calls && s'.calls[call] == s.calls[call]
  {
  }

  /** A sender that still waits for the reply finds nothing under its UUID. */
  lemma NotYetInMap(c: Config, tr: seq<Action>, call: nat)
    requires Valid(c, tr) && call in After(c, tr).calls && After(c, tr).calls[call].Calling?
    ensures After(c, tr).calls[call].update.uuid !in After(c, tr).updates
  {
    UpdateSafety.UpdatesInvHolds(c, tr);
  }

  /** The decoder has an event whose handler has not returned. */
  predicate InHandler(s: State, k: nat) {
    k < |s.sessions| && (s.sessions[k].decoder.Received? || s.sessions[k].decoder.Handling?)
  }

  /** Steps that only the decoder of session `k` takes while it has an event. */
  predicate OfHandler(a: Action, k: nat) {
    (a.Handles? || a.Handled?) && a.session == k
  }

  lemma HandlerUndisturbed(c: Config, s: State, a: Action, k: nat)
    requires Enabled(c, s, a) && InHandler(s, k) && !OfHandler(a, k)
    ensures var s' := Apply(c, s, a);
            InHandler(s', k) && s'.sessions[k].decoder == s.sessions[k].decoder
  {
  }

  /** The values of a map as a list, in some order. */
  method ValuesOf<T(==)>(m: map<string, T>) returns (result: seq<T>)
    ensures forall v :: multiset(result)[v] == Occurrences(m, v)
    ensures Lists(result, m)
  {
    result := [];
    var rest := m.Keys;
    while rest != {}
      invariant rest <= m.Keys
      invariant forall v :: multiset(result)[v] == |KeysHolding(m, m.Keys - rest, v)|
      decreases rest
    {
      var key :| key in rest;
      ghost var seen, taken := m.Keys - rest, result;
      result := result + [m[key]];
      rest := rest - {key};
      forall v ensures multiset(result)[v] == |KeysHolding(m, m.Keys - rest, v)| {
        OneMoreKey(m, seen, key, v);
        assert m.Keys - rest == seen + {key};
        assert multiset(result) == multiset(taken) + multiset{m[key]};
      }
    }
    assert m.Keys - rest == m.Keys;
    SnapshotLists(result, m);
  }

  /**
   The last step was SUBSCRIBE, with the tasks read at step `n` and the updates read
   at step `q`; these were all that was to be replayed then.
   */
  ghost predicate SentWith(c: Config, tr: seq<Action>, n: nat, q: nat, tasks: seq<Task>, updates: seq<Update>) {
    && n < q < |tr| - 1 && tr[n] == ReadTasks(tasks) && tr[q] == ReadUpdates(updates)
    && Last(tr) == Subscribe(tasks, updates)
    && UpdateSafety.ReplaysAll(c, tr[..q], updates)
  }

  lemma Chained(c: Config, h0: seq<Action>, h2: seq<Action>, tr: seq<Action>, tasks: seq<Task>, updates: seq<Update>)
    requires h0 + [ReadTasks(tasks)] <= h2 && h2 + [ReadUpdates(updates)] < tr && Last(tr) == Subscribe(tasks, updates)
    requires UpdateSafety.ReplaysAll(c, h2, updates)
    ensures SentWith(c, tr, |h0|, |h2|, tasks, updates)
  {
    assert tr[..|h2|] == h2;
    assert h2[|h0|] == (h0 + [ReadTasks(tasks)])[|h0|];
    assert tr[|h2|] == (h2 + [ReadUpdates(updates)])[|h2|];
  }

  lemma StaysStopped(c: Config, tr: seq<Action>, longer: seq<Action>)
    requires DriverProtocol.Valid(c, tr) && DriverProtocol.Valid(c, longer) && tr <= longer
    ensures After(c, tr).stopped ==> After(c, longer).stopped
  {
    assert longer[..|tr|] == tr;
    if After(c, tr).stopped {
      RunSafety.StoppedForGood(c, longer, |tr|);
    }
  }

  /** The run `tr`, then those of `steps` that are someone's who may move, and possible when their turn comes. */
  ghost function Joined(c: Config, tr: seq<Action>, steps: seq<Action>, may: Action -> bool): seq<Action> {
    if steps == [] then tr
    else
      var before, a := Joined(c, tr, Front(steps), may), Last(steps);
      if may(a) && DriverProtocol.Valid(c, before) && Enabled(c, After(c, before), a) then before + [a] else before
  }

  class ExecutorDriver {
    const cfg: Config
    var unackedTasks: map<string, Task>
    var unackedUpdates: map<string, Update>
    var quitClosed: bool
    var disconnectTime: int
    var history: seq<Action>

    ghost predicate IsState(s: State)
      reads this
    {
      && unackedTasks == s.tasks && unackedUpdates == s.updates
      && quitClosed == s.stopped && disconnectTime == s.disconnected
    }

    ghost predicate Valid()
      reads this
    {
      DriverProtocol.Valid(cfg, history) && IsState(After(cfg, history))
    }

    function Now(): State
      requires Valid()
      reads this
    {
      After(cfg, history)
    }

    constructor (cfg: Config)
      ensures Valid() && history == [] && this.cfg == cfg
    {
      this.cfg := cfg;
      unackedTasks, unackedUpdates := map[], map[];
      quitClosed := false;
      disconnectTime := cfg.start;
      history := [];
    }

    method UnacknowledgedTasks() returns (result: seq<Task>)
      ensures Lists(result, unackedTasks)
    {
      result := ValuesOf(unackedTasks);
    }

    method UnacknowledgedUpdates() returns (result: seq<Update>)
      ensures Lists(result, unackedUpdates)
    {
      result := ValuesOf(unackedUpdates);
    }

    method Stop()
      requires Valid() && !quitClosed
      modifies this
      ensures Valid() && history == old(history) + [Action.Stop] && quitClosed
    {
      Extend(cfg, history, Action.Stop);
      quitClosed := true;
      history := history + [Action.Stop];
    }

    /** A step of some other thread, whatever fields it changes. */
    method OtherStep(a: Action)
      requires Valid() && Enabled(cfg, Now(), a)
      modifies this
      ensures Valid() && history == old(history) + [a] && Now() == Apply(cfg, old(Now()), a)
    {
      var s := Apply(cfg, After(cfg, history), a);
      Extend(cfg, history, a);
      unackedTasks, unackedUpdates := s.tasks, s.updates;
      quitClosed, disconnectTime := s.stopped, s.disconnected;
      history := history + [a];
    }

    /** All other threads, while the sender of `call` is where it is. */
    method WhileSending(steps: seq<Action>, call: nat)
      requires Valid() && call in Now().calls
      modifies this
      ensures Valid() && old(history) <= history
      ensures history == Joined(cfg, old(history), steps, a => !OfSender(a, call))
      ensures call in Now().calls && Now().calls[call] == old(Now()).calls[call]
    {
      for i := 0 to |steps|
        invariant Valid() && old(history) <= history
        invariant history == Joined(cfg, old(history), steps[..i], a => !OfSender(a, call))
        invariant call in Now().calls && Now().calls[call] == old(Now()).calls[call]
      {
        assert Front(steps[..i + 1]) == steps[..i];
        if !OfSender(steps[i], call) && Enabled(cfg, After(cfg, history), steps[i]) {
          SenderUndisturbed(cfg, After(cfg, history), steps[i], call);
          OtherStep(steps[i]);
        }
      }
      assert steps[..|steps|] == steps;
    }

    /**
     `sent` is whether the agent took the update. Other threads move while the
     sender waits for the reply, and again before it takes up the map.
     */
    method SendStatusUpdate(call: nat, update: Update, sent: bool, meanwhile: seq<Action>, between: seq<Action>)
      returns (ok: bool)
      requires Valid() && Enabled(cfg, Now(), BeginSend(call, update))
      modifies this
      ensures Valid() && ok == sent && old(history) + [BeginSend(call, update)] <= history
      ensures sent ==> Last(history) == Record(call, update)
      ensures sent ==> exists i :: |old(history)| < i < |history| - 1 && history[i] == SendReturned(call, update, true)
      ensures !sent ==> Last(history) == SendReturned(call, update, false)
      ensures sent <==> update.uuid in unackedUpdates
      ensures sent ==> unackedUpdates[update.uuid] == update
    {
      Extend(cfg, history, BeginSend(call, update));
      history := history + [BeginSend(call, update)];
      WhileSending(meanwhile, call);
      NotYetInMap(cfg, history, call);
      Extend(cfg, history, SendReturned(call, update, sent));
      ghost var returned := |history|;
      history := history + [SendReturned(call, update, sent)];
      if sent {
        WhileSending(between, call);
        Extend(cfg, history, Record(call, update));
        unackedUpdates := unackedUpdates[update.uuid := update];
        history := history + [Record(call, update)];
        assert history[returned] == SendReturned(call, update, true);
      }
      ok := sent;
    }

    /** All other threads, while the decoder of session `k` is in its handler. */
    method WhileHandling(steps: seq<Action>, k: nat)
      requires Valid() && InHandler(Now(), k)
      modifies this
      ensures Valid() && old(history) <= history
      ensures history == Joined(cfg, old(history), steps, a => !OfHandler(a, k))
      ensures InHandler(Now(), k) && Now().sessions[k].decoder == old(Now()).sessions[k].decoder
      ensures old(quitClosed) ==> quitClosed
    {
      for i := 0 to |steps|
        invariant Valid() && old(history) <= history
        invariant InHandler(Now(), k) && Now().sessions[k].decoder == old(Now()).sessions[k].decoder
        invariant old(quitClosed) ==> quitClosed
        invariant history == Joined(cfg, old(history), steps[..i], a => !OfHandler(a, k))
      {
        assert Front(steps[..i + 1]) == steps[..i];
        if !OfHandler(steps[i], k) && Enabled(cfg, After(cfg, history), steps[i]) {
          HandlerUndisturbed(cfg, After(cfg, history), steps[i], k);
          RunSafety.StopStep(cfg, After(cfg, history), steps[i]);
          OtherStep(steps[i]);
        }
      }
      assert steps[..|steps|] == steps;
    }

    /** What the handler of an event does to the maps and the quit channel. */
    method UpdateFor(k: nat, e: Event)
      requires Valid() && Enabled(cfg, Now(), Handles(k, e))
      modifies this
      ensures Valid() && history == old(history) + [Handles(k, e)]
      ensures quitClosed <==> old(quitClosed) || e.Shutdown?
      ensures match e {
                case Launch(task) => unackedTasks == old(unackedTasks)[task.id := task]
                case Acknowledged(taskId, _) => unackedTasks == old(unackedTasks) - {taskId}
                case _ => unackedTasks == old(unackedTasks)
              }
      ensures match e {
                case Acknowledged(_, uuid) => unackedUpdates == old(unackedUpdates) - {uuid}
                case _ => unackedUpdates == old(unackedUpdates)
              }
      ensures InHandler(Now(), k) && Now().sessions[k].decoder == Handling(e)
    {
      Extend(cfg, history, Handles(k, e));
      match e {
        case Launch(task) =>
          unackedTasks := unackedTasks[task.id := task];
        case Acknowledged(taskId, uuid) =>
          unackedTasks := unackedTasks - {taskId};
          unackedUpdates := unackedUpdates - {uuid};
        case Shutdown =>
          quitClosed := true;
        case _ =>
      }
      history := history + [Handles(k, e)];
    }

    /** The event is decoded. */
    method Decode(k: nat, e: Event)
      requires Valid() && Enabled(cfg, Now(), Decoded(k, e))
      modifies this`history
      ensures Valid() && history == old(history) + [Decoded(k, e)]
      ensures InHandler(Now(), k) && Now().sessions[k].decoder == Received(e)
    {
      Extend(cfg, history, Decoded(k, e));
      history := history + [Decoded(k, e)];
    }

    /**
     One event, decoded and handled by the decoder of session `k`. Other threads
     move before the handler does its work; what happens from then on until it
     returns, the sends of the task callbacks it makes among it, is up to them. A
     SHUTDOWN that comes when the driver is stopped already is a panic: the channel
     is closed.
     */
    method HandleEvent(k: nat, e: Event, before: seq<Action>, meanwhile: seq<Action>)
      returns (panicked: bool, err: Option<Err>)
      requires Valid() && Enabled(cfg, Now(), Decoded(k, e))
      modifies this
      ensures Valid() && old(history) + [Decoded(k, e)] <= history
      ensures panicked ==> e.Shutdown? && quitClosed
      ensures !panicked ==> Last(history) == Handled(k) && Handles(k, e) in history[|old(history)|..]
      ensures !panicked ==> k < |Now().sessions| && Now().sessions[k].decoder == Offering(err)
      ensures !panicked ==> (err.Some? <==> e.Error?)
      ensures !panicked && e.Shutdown? ==> quitClosed
    {
      Decode(k, e);
      WhileHandling(before, k);
      if e.Shutdown? && quitClosed {
        return true, None;
      }
      ghost var handled := |history|;
      UpdateFor(k, e);
      WhileHandling(meanwhile, k);
      err := Return(k, e);
      assert history[handled] == Handles(k, e);
      panicked := false;
    }

    /** The handler returns, and the decoder offers what it returned. */
    method Return(k: nat, e: Event) returns (err: Option<Err>)
      requires Valid() && InHandler(Now(), k) && Now().sessions[k].decoder == Handling(e)
      modifies this`history
      ensures Valid() && history == old(history) + [Handled(k)]
      ensures k < |Now().sessions| && Now().sessions[k].decoder == Offering(err)
      ensures err.Some? <==> e.Error?
    {
      err := if e.Error? then Some(Err.Aborted) else None;
      Extend(cfg, history, Handled(k));
      history := history + [Handled(k)];
    }

    /** The other threads take those of the given steps that they can. */
    method Interfere(steps: seq<Action>)
      requires Valid()
      modifies this
      ensures Valid() && RunUndisturbed(old(Now()), Now()) && old(history) <= history
      ensures history == Joined(cfg, old(history), steps, Foreign)
    {
      for i := 0 to |steps|
        invariant Valid() && RunUndisturbed(old(Now()), Now()) && old(history) <= history
        invariant history == Joined(cfg, old(history), steps[..i], Foreign)
      {
        assert Front(steps[..i + 1]) == steps[..i];
        if Foreign(steps[i]) && Enabled(cfg, After(cfg, history), steps[i]) {
          ForeignStep(cfg, After(cfg, history), steps[i]);
          OtherStep(steps[i]);
        }
      }
      assert steps[..|steps|] == steps;
    }

    /** A step of Run that changes no field: it only moves on. */
    method MoveOn(a: Action)
      requires Valid() && Enabled(cfg, Now(), a)
      requires a.ReadTasks? || a.ReadUpdates? || a.Subscribe? || a.SubscribeFailed? || a.Connected?
               || a.SeeStopped? || a.SeeRunning? || a.Judge? || a.Wake?
      modifies this`history
      ensures Valid() && history == old(history) + [a]
      ensures Now().phase == PhaseAfter(cfg, old(Now()), a)
      ensures Now().now == old(Now()).now
      ensures a.Connected? ==> LoopActive(Now())
    {
      Extend(cfg, history, a);
      history := history + [a];
    }

    /** The end of a session, which is when Run reads the clock. */
    method NoteDisconnect()
      requires Valid() && Enabled(cfg, Now(), EndSession)
      modifies this
      ensures Valid() && history == old(history) + [EndSession]
      ensures Now().phase.Checking? && disconnectTime == Now().now
    {
      Extend(cfg, history, EndSession);
      disconnectTime := After(cfg, history).now;
      history := history + [EndSession];
    }

    /** How much the event loop of the last session has received. */
    ghost function Intake(): nat
      requires Valid() && Now().sessions != []
      reads this
    {
      |Last(Now().sessions).received|
    }

    /** One pass of the event loop; `quitFirst` is whether its select prefers the quit channel. */
    method LoopTurn(others: seq<Action>, quitFirst: bool) returns (returned: bool, err: Option<Err>)
      requires Valid() && LoopActive(Now())
      modifies this
      ensures Valid() && old(history) <= history && Now().phase.InLoop?
      ensures |Now().sessions| == |old(Now()).sessions|
      ensures Last(Now().sessions).loop == if returned then Returned(err) else Looping
      ensures returned && err.None? ==> quitClosed
      ensures old(quitClosed) && quitFirst ==> returned && err.None?
      ensures old(quitClosed) ==> quitClosed
      ensures old(Intake()) <= Intake()
      ensures !quitClosed && Last(old(Now()).sessions).decoder.Offering? ==> old(Intake()) < Intake()
    {
      Interfere(others);
      var s := After(cfg, history);
      var k := |s.sessions| - 1;
      var offered := s.sessions[k].decoder.Offering?;
      if quitClosed && (quitFirst || !offered) {
        Extend(cfg, history, LoopQuit);
        history := history + [LoopQuit];
        return true, None;
      }
      if offered {
        err := s.sessions[k].decoder.result;
        Extend(cfg, history, Deliver(k));
        history := history + [Deliver(k)];
        return err.Some?, err;
      }
      return false, None;
    }

    /** Takes turns until an error arrives, or the driver is stopped, or `patience` runs out. */
    method EventLoop(env: Environment, from: nat, patience: nat)
      returns (returned: bool, err: Option<Err>, turn: nat)
      requires Valid() && LoopActive(Now())
      modifies this
      ensures Valid() && old(history) <= history && Now().phase.InLoop? && Now().sessions != []
      ensures Last(Now().sessions).loop == if returned then Returned(err) else Looping
      ensures returned && err.None? ==> quitClosed && SessionSafety.AllNil(Last(Now().sessions).received)
      ensures returned && err.Some? ==> SessionSafety.FirstErrorLast(Last(Now().sessions).received, err.value)
      ensures patience > 0 && old(quitClosed) && (forall t :: env.quitFirst(t)) ==> returned && err.None?
      ensures patience > 0 && !quitClosed && Last(old(Now()).sessions).decoder.Offering? ==> old(Intake()) < Intake()
    {
      returned, err, turn := false, None, from;
      while !returned && turn < from + patience
        invariant Valid() && old(history) <= history && Now().phase.InLoop? && Now().sessions != []
        invariant Last(Now().sessions).loop == if returned then Returned(err) else Looping
        invariant returned && err.None? ==> quitClosed
        invariant turn <= from + patience && (turn == from ==> history == old(history) && !returned)
        invariant old(quitClosed) && (forall t :: env.quitFirst(t)) && turn > from ==> returned && err.None?
        invariant old(Intake()) <= Intake() && (old(quitClosed) ==> quitClosed)
        invariant turn > from && !quitClosed && Last(old(Now()).sessions).decoder.Offering? ==> old(Intake()) < Intake()
        decreases from + patience - turn
      {
        returned, err := LoopTurn(env.others(turn), env.quitFirst(turn));
        turn := turn + 1;
      }
      SessionSafety.EventLoopResult(cfg, history, |After(cfg, history).sessions| - 1);
    }

    /** Sends SUBSCRIBE with what is not yet acknowledged; others may move between the snapshots, and after them. */
    method SendSubscribe(between: seq<Action>, afterwards: seq<Action>)
      returns (tasks: seq<Task>, updates: seq<Update>, ghost q: nat)
      requires Valid() && Now().phase.Ready?
      modifies this
      ensures Valid() && old(history) <= history && Now().phase.Sent?
      ensures SentWith(cfg, history, |old(history)|, q, tasks, updates)
    {
      tasks := TakeTasks(between);
      ghost var before := history;
      q := |history|;
      updates := TakeUpdates(tasks);
      Send(tasks, updates, afterwards);
      Chained(cfg, old(history), before, history, tasks, updates);
    }

    /** The first snapshot. */
    method TakeTasks(others: seq<Action>) returns (tasks: seq<Task>)
      requires Valid() && Now().phase.Ready?
      modifies this
      ensures Valid() && old(history) + [ReadTasks(tasks)] <= history && Now().phase == TasksRead(tasks)
    {
      tasks := UnacknowledgedTasks();
      MoveOn(ReadTasks(tasks));
      Interfere(others);
    }

    /** Both go to the agent. */
    method Send(tasks: seq<Task>, updates: seq<Update>, before: seq<Action>)
      requires Valid() && Now().phase == UpdatesRead(tasks, updates)
      modifies this
      ensures Valid() && old(history) < history && Last(history) == Subscribe(tasks, updates) && Now().phase.Sent?
    {
      Interfere(before);
      MoveOn(Subscribe(tasks, updates));
    }

    /** The second snapshot. */
    method TakeUpdates(tasks: seq<Task>) returns (updates: seq<Update>)
      requires Valid() && Now().phase == TasksRead(tasks)
      modifies this`history
      ensures Valid() && history == old(history) + [ReadUpdates(updates)]
      ensures Now().phase == UpdatesRead(tasks, updates)
      ensures UpdateSafety.ReplaysAll(cfg, old(history), updates)
    {
      updates := UnacknowledgedUpdates();
      UpdateSafety.SnapshotReplaysAll(cfg, history, updates);
      MoveOn(ReadUpdates(updates));
    }

    /** Subscribes, and enters the event loop if that worked; io.EOF counts as having worked. */
    method TrySubscribe(env: Environment, from: nat) returns (connected: bool)
      requires Valid() && Now().phase.Ready?
      modifies this
      ensures Valid() && old(history) <= history
      ensures connected <==> env.reply(from) in {None, Some(Eof)}
      ensures if connected then LoopActive(Now()) else Now().phase.Checking?
      ensures RunSafety.Subscriptions(history) > RunSafety.Subscriptions(old(history))
    {
      Interfere(env.others(from));
      var tasks, updates, q := SendSubscribe(env.others(from + 1), env.others(from + 2));
      RunSafety.SubscriptionsGrow(old(history), history);
      ghost var sent := history;
      connected := AwaitReply(env, from);
      RunSafety.SubscriptionsGrow(sent, history);
    }

    /** The agent's reply to SUBSCRIBE. */
    method AwaitReply(env: Environment, from: nat) returns (connected: bool)
      requires Valid() && Now().phase.Sent?
      modifies this
      ensures Valid() && old(history) <= history
      ensures connected <==> env.reply(from) in {None, Some(Eof)}
      ensures if connected then LoopActive(Now()) else Now().phase.Checking?
    {
      Interfere(env.others(from + 3));
      var reply := env.reply(from);
      if reply.Some? && reply != Some(Eof) {
        MoveOn(SubscribeFailed);
        return false;
      }
      MoveOn(Connected);
      return true;
    }

    /** One pass of the function block in Run's loop: subscribe, and if that works serve the session. */
    method Session(env: Environment, from: nat, patience: nat) returns (ended: bool, turn: nat)
      requires Valid() && Now().phase.Ready?
      modifies this
      ensures Valid() && old(history) <= history && (if ended then Now().phase.Checking? else LoopActive(Now()))
      ensures RunSafety.Subscriptions(history) > RunSafety.Subscriptions(old(history))
      ensures env.reply(from) !in {None, Some(Eof)} ==> ended
      ensures old(quitClosed) && patience > 0 && (forall t :: env.quitFirst(t)) ==> ended
    {
      turn := from + 4;
      var connected := TrySubscribe(env, from);
      ghost var subscribed := history;
      StaysStopped(cfg, old(history), history);
      if !connected {
        return true, turn;
      }
      var err;
      ended, err, turn := EventLoop(env, turn, patience);
      if ended {
        Interfere(env.others(turn));
        NoteDisconnect();
        turn := turn + 1;
      }
      RunSafety.SubscriptionsGrow(subscribed, history);
    }

    /** Where Run is when it has come to this, and does not go on to another round now. */
    ghost predicate Came(outcome: Outcome)
      requires Valid()
      reads this
    {
      match outcome
      case StillRunning => LoopActive(Now()) || (Now().phase.Waiting? && !Enabled(cfg, Now(), Wake))
      case Aborted => Now().phase == Ended(true)
      case Done => Now().phase == Ended(false) && (quitClosed || !cfg.checkpoint)
    }

    /** One round of Run's loop; `more` is whether the next can begin. */
    method Round(env: Environment, from: nat, patience: nat) returns (outcome: Outcome, more: bool, turn: nat)
      requires Valid() && Now().phase.Ready?
      modifies this
      ensures Valid() && old(history) <= history && (old(quitClosed) ==> quitClosed)
      ensures if more then outcome.StillRunning? && Now().phase.Ready? else Came(outcome)
      ensures RunSafety.Subscriptions(history) > RunSafety.Subscriptions(old(history))
      ensures old(quitClosed) || !cfg.checkpoint ==> LoopActive(Now()) || outcome.Done?
      ensures old(quitClosed) && patience > 0 && (forall t :: env.quitFirst(t)) ==> outcome.Done?
      ensures !cfg.checkpoint && env.reply(from) !in {None, Some(Eof)} ==> outcome.Done?
    {
      outcome := StillRunning;
      more, turn := Session(env, from, patience);
      ghost var served := history;
      StaysStopped(cfg, old(history), served);
      if more {
        outcome, more, turn := Recheck(env, turn);
      }
      StaysStopped(cfg, old(history), history);
      RunSafety.SubscriptionsGrow(served, history);
    }

    /** Run, watched for at most `rounds` subscriptions with `patience` turns each in the event loop. */
    method Run(env: Environment, rounds: nat, patience: nat) returns (outcome: Outcome)
      requires Valid() && Now().phase.Ready?
      modifies this
      ensures Valid() && old(history) <= history
      ensures outcome.StillRunning? <==> !Now().phase.Ended?
      ensures outcome.StillRunning? ==> Now().phase.Ready? || LoopActive(Now()) || Now().phase.Waiting?
      ensures Now().phase.Waiting? ==> !Enabled(cfg, Now(), Wake)
      ensures Now().phase.Ready? ==> RunSafety.Subscriptions(history) >= RunSafety.Subscriptions(old(history)) + rounds
      ensures rounds > 0 ==> RunSafety.Subscriptions(history) > RunSafety.Subscriptions(old(history))
      ensures rounds > 0 && outcome.StillRunning? && (old(quitClosed) || !cfg.checkpoint) ==> LoopActive(Now())
      ensures rounds > 0 && old(quitClosed) && patience > 0 && (forall t :: env.quitFirst(t)) ==> outcome.Done?
      ensures rounds > 0 && !cfg.checkpoint && env.reply(0) !in {None, Some(Eof)} ==> outcome.Done?
      ensures outcome.Aborted? ==> cfg.checkpoint && exists i: nat, j: nat :: RunSafety.GaveUp(cfg, history, i, j)
      ensures outcome.Done? ==> quitClosed || !cfg.checkpoint
      ensures !outcome.StillRunning? ==>
                (outcome.Done? <==> !cfg.checkpoint || exists i: nat :: RunSafety.SawStopped(cfg, history, i))
      ensures !cfg.checkpoint && !outcome.StillRunning? ==> RunSafety.Subscriptions(history) == 1
      ensures cfg.minWait > 0 ==> RunSafety.FailuresInARow(history) <= cfg.recoveryTimeout / cfg.minWait + 2
      ensures old(quitClosed) ==> RunSafety.Subscriptions(history) <= RunSafety.Subscriptions(old(history)) + 1
                                  && RunSafety.RunSteps(history) <= RunSafety.RunSteps(old(history)) + 9
    {
      var more, turn := true, 0;
      outcome := StillRunning;
      for round := 0 to rounds
        invariant Valid() && old(history) <= history && (old(quitClosed) ==> quitClosed)
        invariant more ==> Now().phase.Ready? && outcome.StillRunning?
        invariant !more ==> round > 0 && Came(outcome)
        invariant more ==> RunSafety.Subscriptions(history) >= RunSafety.Subscriptions(old(history)) + round
        invariant round > 0 ==> RunSafety.Subscriptions(history) > RunSafety.Subscriptions(old(history))
        invariant round == 0 ==> more && turn == 0
        invariant round > 0 && (old(quitClosed) || !cfg.checkpoint) ==> LoopActive(Now()) || outcome.Done?
        invariant round > 0 && old(quitClosed) && patience > 0 && (forall t :: env.quitFirst(t)) ==> outcome.Done?
        invariant round > 0 && !cfg.checkpoint && env.reply(0) !in {None, Some(Eof)} ==> outcome.Done?
      {
        if more {
          outcome, more, turn := Round(env, turn, patience);
        }
      }
      if outcome.Aborted? {
        RunSafety.ErrorReturn(cfg, history);
      }
      if !outcome.StillRunning? {
        RunSafety.NilReturn(cfg, history);
      }
      if !cfg.checkpoint {
        RunSafety.SingleSubscription(cfg, history);
      }
      if old(quitClosed) {
        ghost var before := |old(history)|;
        assert history[..before] == old(history);
        RunSafety.OneSubscribeAfterStop(cfg, history, before);
        RunSafety.StoppedRunEnds(cfg, history, before);
      }
      if cfg.minWait > 0 {
        RunSafety.FailuresAreBounded(cfg, history);
      }
    }

    /** The tail of Run's loop: the tests, and the wait for the notifier, which may or may not have let it go. */
    method Recheck(env: Environment, from: nat) returns (outcome: Outcome, woken: bool, turn: nat)
      requires Valid() && Now().phase.Checking?
      modifies this
      ensures Valid() && old(history) <= history
      ensures woken ==> outcome.StillRunning?
      ensures outcome.StillRunning? ==> if woken then Now().phase.Ready? else Now().phase.Waiting?
      ensures outcome.Aborted? ==> Now().phase == Ended(true)
      ensures outcome.Done? ==> Now().phase == Ended(false) && (quitClosed || !cfg.checkpoint)
      ensures old(quitClosed) || !cfg.checkpoint ==> outcome.Done?
      ensures Now().phase.Waiting? ==> !Enabled(cfg, Now(), Wake)
    {
      woken, turn := false, from + 3;
      Interfere(env.others(from));
      var running := TestQuit();
      if !running {
        return Done, woken, turn;
      }
      Interfere(env.others(from + 1));
      outcome := Decide();
      if outcome.StillRunning? {
        Interfere(env.others(from + 2));
        woken := AwaitNotifier();
      }
    }

    /** Whether the driver was seen not to be stopped. */
    method TestQuit() returns (running: bool)
      requires Valid() && Now().phase.Checking?
      modifies this`history
      ensures Valid() && old(history) <= history && running == !quitClosed
      ensures Now().phase == if running then Judging else Ended(false)
    {
      running := !quitClosed;
      MoveOn(if running then SeeRunning else SeeStopped);
    }

    /** The pause before the next round ends when the notifier allows it. */
    method AwaitNotifier() returns (woken: bool)
      requires Valid() && Now().phase.Waiting?
      modifies this`history
      ensures Valid() && old(history) <= history
      ensures if woken then Now().phase.Ready? else Now().phase.Waiting? && !Enabled(cfg, Now(), Wake)
    {
      woken := Enabled(cfg, After(cfg, history), Wake);
      if woken {
        MoveOn(Wake);
      }
    }

    /** What becomes of the run once the driver was seen not to be stopped. */
    method Decide() returns (outcome: Outcome)
      requires Valid() && Now().phase.Judging?
      modifies this`history
      ensures Valid() && old(history) <= history
      ensures outcome.Done? <==> !cfg.checkpoint
      ensures outcome.Aborted? <==>
        cfg.checkpoint && old(Now()).now - disconnectTime > cfg.recoveryTimeout
      ensures Now().phase ==
        if outcome.Done? then Ended(false) else if outcome.Aborted? then Ended(true) else Waiting(old(Now()).now)
    {
      var now := After(cfg, history).now;
      MoveOn(Judge);
      if !cfg.checkpoint {
        return Done;
      }
      if now - disconnectTime > cfg.recoveryTimeout {
        return Outcome.Aborted;
      }
      return StillRunning;
    }
  }
}
