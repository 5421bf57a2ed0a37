/**
 The Mesos executor driver as a labelled transition system.

 One step is one thing that a goroutine does without another being able to
 interfere: a map operation, a channel rendezvous, the return of a network
 call, one test in `Run`. The goroutines are
  - any number of callers of SendStatusUpdate (the event handlers and the
    container monitor), for whom "the send returned" and "the update was put in
    the map" are two steps;
  - one decoder per session, which outlives the event loop that started it;
  - the event loop of the current session;
  - Run itself.
 All nondeterminism sits in the action, so a run is a sequence of actions.
 */
module DriverProtocol {
  import opened Options

  datatype Task = Task(id: string, info: string)

  datatype TaskState = Running | Finished | Failed | Killed

  datatype Update = Update(uuid: string, taskId: string, state: TaskState)

  /** Eof is io.EOF; Aborted is what the handler of an ERROR event returns. */
  datatype Err = Eof | Transport | Aborted

  datatype Event =
    | Subscribed
    | Launch(task: Task)
    | Kill(taskId: string)
    | Acknowledged(taskId: string, uuid: string)
    | Message
    | Shutdown
    | Error
    | Heartbeat
    | Unknown

  /** `minWait` is the shortest pause that the reconnect notifier imposes. */
  datatype Config = Config(checkpoint: bool, recoveryTimeout: nat, minWait: nat, start: int)

  /** A call of SendStatusUpdate in progress. */
  datatype Call = Calling(update: Update) | Accepted(update: Update)

  /** Received: the event is decoded; Handling: its handler has done what it does to the driver. */
  datatype Decoder =
    | Decoding
    | Received(event: Event)
    | Handling(event: Event)
    | Offering(result: Option<Err>)
    | Exited

  datatype Loop = Looping | Returned(result: Option<Err>)

  /** `rounds` counts completed decode/handle rounds, `received` what the event loop took. */
  datatype Session = Session(decoder: Decoder, loop: Loop, rounds: nat, received: seq<Option<Err>>)

  datatype Phase =
    | Ready                // about to take the snapshot of the tasks
    | TasksRead(tasks: seq<Task>)    // about to take that of the updates
    | UpdatesRead(tasks: seq<Task>, updates: seq<Update>)    // about to send SUBSCRIBE with both
    | Sent                 // SUBSCRIBE sent, no reply yet
    | InLoop               // inside the event loop of the last session
    | Checking             // at the test of the quit channel
    | Judging              // past it, at the tests of checkpointing and elapsed time
    | Waiting(since: int)  // blocked on the reconnect notifier
    | Ended(error: bool)

  datatype State = State(
    tasks: map<string, Task>,
    updates: map<string, Update>,
    calls: map<nat, Call>,
    uuids: set<string>,
    stopped: bool,
    sessions: seq<Session>,
    phase: Phase,
    now: int,
    disconnected: int)

  datatype Action =
    | BeginSend(call: nat, update: Update)
    | SendReturned(call: nat, update: Update, ok: bool)
    | Record(call: nat, update: Update)
    | Stop
    | Tick(elapsed: nat)
    // A session's decoder
    | Decoded(session: nat, event: Event)
    | Handles(session: nat, event: Event)
    | DecodeFailed(session: nat, err: Err)
    | Handled(session: nat)
    | DecoderQuit(session: nat)
    // The event loop
    | Deliver(session: nat)
    | LoopQuit
    // Run
    | ReadTasks(tasks: seq<Task>)
    | ReadUpdates(updates: seq<Update>)
    | Subscribe(tasks: seq<Task>, updates: seq<Update>)
    | SubscribeFailed
    | Connected
    | EndSession
    | SeeStopped
    | SeeRunning
    | Judge
    | Wake

  function Init(c: Config): State {
    State(map[], map[], map[], {}, false, [], Ready, c.start, c.start)
  }

  /** The error an event handler hands back to the decoder. */
  function HandlerResult(e: Event): Option<Err> {
    if e.Error? then Some(Aborted) else None
  }

  function TasksAfter(tasks: map<string, Task>, e: Event): map<string, Task> {
    match e
    case Launch(task) => tasks[task.id := task]
    case Acknowledged(id, _) => tasks - {id}
    case _ => tasks
  }

  function UpdatesAfter(updates: map<string, Update>, e: Event): map<string, Update> {
    match e
    case Acknowledged(_, uuid) => updates - {uuid}
    case _ => updates
  }

  /** Those of `keys` whose value is `v`. */
  function KeysHolding<T(==)>(m: map<string, T>, keys: set<string>, v: T): set<string> {
    set k | k in keys && k in m && m[k] == v
  }

  /** How often `v` occurs among the values of `m`. */
  function Occurrences<T(==)>(m: map<string, T>, v: T): nat {
    |KeysHolding(m, m.Keys, v)|
  }

  /** `list` is a snapshot of `m`: its values, each as often as it occurs, in some order. */
  predicate Lists<T(==)>(list: seq<T>, m: map<string, T>) {
    && (forall v :: v in list ==> multiset(list)[v] == Occurrences(m, v))
    && (forall k :: k in m ==> m[k] in list)
  }

  lemma InSnapshot<T>(list: seq<T>, m: map<string, T>, v: T)
    requires Lists(list, m)
    ensures v in list <==> exists k :: k in m && m[k] == v
    ensures multiset(list)[v] == Occurrences(m, v)
  {
    if v in list {
      assert multiset(list)[v] > 0;
      var k :| k in KeysHolding(m, m.Keys, v);
    } else {
      assert KeysHolding(m, m.Keys, v) == {};
    }
  }

  lemma OneMoreKey<T>(m: map<string, T>, keys: set<string>, key: string, v: T)
    requires key in m && key !in keys
    ensures |KeysHolding(m, keys + {key}, v)| == |KeysHolding(m, keys, v)| + if m[key] == v then 1 else 0
  {
    assert KeysHolding(m, keys + {key}, v) == KeysHolding(m, keys, v) + if m[key] == v then {key} else {};
  }

  /** Some list has, for each value, as many entries as there are keys for it. */
  lemma SnapshotExists<T>(m: map<string, T>, keys: set<string>) returns (list: seq<T>)
    requires keys <= m.Keys
    ensures forall v :: multiset(list)[v] == |KeysHolding(m, keys, v)|
  {
    list := [];
    if keys != {} {
      var key :| key in keys;
      var rest := SnapshotExists(m, keys - {key});
      list := rest + [m[key]];
      forall v ensures multiset(list)[v] == |KeysHolding(m, keys, v)| {
        OneMoreKey(m, keys - {key}, key, v);
        assert keys - {key} + {key} == keys;
      }
    }
  }

  lemma SnapshotLists<T>(list: seq<T>, m: map<string, T>)
    requires forall v :: multiset(list)[v] == Occurrences(m, v)
    ensures Lists(list, m)
  {
    forall k | k in m ensures m[k] in list {
      assert k in KeysHolding(m, m.Keys, m[k]);
      assert multiset(list)[m[k]] == Occurrences(m, m[k]) > 0;
    }
  }

  predicate DecoderIs(s: State, k: nat, d: Decoder) {
    k < |s.sessions| && s.sessions[k].decoder == d
  }

  /** The event loop that Run is inside is still going round. */
  predicate LoopActive(s: State) {
    s.phase.InLoop? && s.sessions != [] && Last(s.sessions).loop.Looping?
  }

  /** Stop closes a channel: a second Stop is outside the protocol. */
  predicate Enabled(c: Config, s: State, a: Action) {
    match a
    case BeginSend(call, u) => call !in s.calls && u.uuid !in s.uuids
    case SendReturned(call, u, _) => call in s.calls && s.calls[call] == Calling(u)
    case Record(call, u) => call in s.calls && s.calls[call] == Accepted(u)
    case Stop => !s.stopped
    case Tick(_) => true
    case Decoded(k, _) => DecoderIs(s, k, Decoding)
    case Handles(k, e) => DecoderIs(s, k, Received(e)) && (e.Shutdown? ==> !s.stopped)
    case DecodeFailed(k, _) => DecoderIs(s, k, Decoding)
    case Handled(k) => k < |s.sessions| && s.sessions[k].decoder.Handling?
    case DecoderQuit(k) => k < |s.sessions| && s.sessions[k].decoder.Offering? && s.stopped
    case Deliver(k) => k < |s.sessions| && s.sessions[k].decoder.Offering? && s.sessions[k].loop.Looping?
    case LoopQuit => LoopActive(s) && s.stopped
    case ReadTasks(tasks) => s.phase.Ready? && Lists(tasks, s.tasks)
    case ReadUpdates(updates) => s.phase.TasksRead? && Lists(updates, s.updates)
    case Subscribe(tasks, updates) => s.phase == UpdatesRead(tasks, updates)
    case SubscribeFailed => s.phase.Sent?
    case Connected => s.phase.Sent?
    case EndSession => s.phase.InLoop? && s.sessions != [] && Last(s.sessions).loop.Returned?
    case SeeStopped => s.phase.Checking? && s.stopped
    case SeeRunning => s.phase.Checking? && !s.stopped
    case Judge => s.phase.Judging?
    case Wake => s.phase.Waiting? && s.now >= s.phase.since + c.minWait
  }

  function WithSession(s: State, k: nat, session: Session): State
    requires k < |s.sessions|
  {
    s.(sessions := s.sessions[k := session])
  }

  /** A decode/handle round ends: the decoder offers its result on the channel. */
  function Offer(s: State, k: nat, result: Option<Err>): State
    requires k < |s.sessions|
  {
    WithSession(s, k, s.sessions[k].(decoder := Offering(result), rounds := s.sessions[k].rounds + 1))
  }

  /** What Run decides once it has seen that it was not told to stop. */
  function Verdict(c: Config, now: int, disconnected: int): Phase {
    if !c.checkpoint then Ended(false)
    else if now - disconnected > c.recoveryTimeout then Ended(true)
    else Waiting(now)
  }

  function Apply(c: Config, s: State, a: Action): State
    requires Enabled(c, s, a)
  {
    match a
    case BeginSend(call, u) => s.(calls := s.calls[call := Calling(u)], uuids := s.uuids + {u.uuid})
    case SendReturned(call, u, ok) =>
      s.(calls := if ok then s.calls[call := Accepted(u)] else s.calls - {call})
    case Record(call, u) => s.(updates := s.updates[u.uuid := u], calls := s.calls - {call})
    case Stop => s.(stopped := true)
    case Tick(elapsed) => s.(now := s.now + elapsed)
    case Decoded(k, e) => WithSession(s, k, s.sessions[k].(decoder := Received(e)))
    case Handles(k, e) =>
      WithSession(s, k, s.sessions[k].(decoder := Handling(e)))
      .(tasks := TasksAfter(s.tasks, e), updates := UpdatesAfter(s.updates, e), stopped := s.stopped || e.Shutdown?)
    case DecodeFailed(k, err) => Offer(s, k, Some(err))
    case Handled(k) => Offer(s, k, HandlerResult(s.sessions[k].decoder.event))
    case DecoderQuit(k) => WithSession(s, k, s.sessions[k].(decoder := Exited))
    case Deliver(k) =>
      var r := s.sessions[k].decoder.result;
      WithSession(s, k, s.sessions[k].(
        decoder := Decoding,
        received := s.sessions[k].received + [r],
        loop := if r.Some? then Returned(r) else Looping))
    case LoopQuit => WithSession(s, |s.sessions| - 1, Last(s.sessions).(loop := Returned(None)))
    case ReadTasks(tasks) => s.(phase := TasksRead(tasks))
    case ReadUpdates(updates) => s.(phase := UpdatesRead(s.phase.tasks, updates))
    case Subscribe(_, _) => s.(phase := Sent)
    case SubscribeFailed => s.(phase := Checking)
    case Connected => s.(phase := InLoop, sessions := s.sessions + [Session(Decoding, Looping, 0, [])])
    case EndSession => s.(phase := Checking, disconnected := s.now)
    case SeeStopped => s.(phase := Ended(false))
    case SeeRunning => s.(phase := Judging)
    case Judge => s.(phase := Verdict(c, s.now, s.disconnected))
    case Wake => s.(phase := Ready)
  }

  /** The state a run leads to, or None when some step of it was not enabled. */
  function Exec(c: Config, tr: seq<Action>): Option<State> {
    if tr == [] then Some(Init(c))
    else
      match Exec(c, Front(tr))
      case None => None
      case Some(s) => if Enabled(c, s, Last(tr)) then Some(Apply(c, s, Last(tr))) else None
  }

  predicate Valid(c: Config, tr: seq<Action>) {
    Exec(c, tr).Some?
  }

  function After(c: Config, tr: seq<Action>): State
    requires Valid(c, tr)
  {
    Exec(c, tr).value
  }

  /** One more enabled step extends a run. */
  lemma Extend(c: Config, tr: seq<Action>, a: Action)
    requires Valid(c, tr) && Enabled(c, After(c, tr), a)
    ensures Valid(c, tr + [a]) && After(c, tr + [a]) == Apply(c, After(c, tr), a)
  {
    assert Front(tr + [a]) == tr;
  }

  /** The same, when only what happened matters and not in which order. */
  lemma Do(c: Config, tr: seq<Action>, a: Action) returns (next: seq<Action>)
    requires Valid(c, tr) && Enabled(c, After(c, tr), a)
    ensures Valid(c, next) && After(c, next) == Apply(c, After(c, tr), a)
    ensures a in next && forall b :: b in tr ==> b in next
  {
    Extend(c, tr, a);
    next := tr + [a];
  }

  /** Every prefix of a run is a run. */
  lemma {:induction false} PrefixValid(c: Config, tr: seq<Action>, i: nat)
    requires Valid(c, tr) && i <= |tr|
    ensures Valid(c, tr[..i])
  {
    if i < |tr| {
      PrefixValid(c, Front(tr), i);
      assert Front(tr)[..i] == tr[..i];
    } else {
      assert tr[..i] == tr;
    }
  }

  /** Each step of a run was enabled where it was taken. */
  lemma StepTaken(c: Config, tr: seq<Action>, i: nat)
    requires Valid(c, tr) && i < |tr|
    ensures Valid(c, tr[..i]) && Enabled(c, After(c, tr[..i]), tr[i])
    ensures Valid(c, tr[..i + 1]) && After(c, tr[..i + 1]) == Apply(c, After(c, tr[..i]), tr[i])
  {
    PrefixValid(c, tr, i + 1);
    assert Front(tr[..i + 1]) == tr[..i];
  }
}
