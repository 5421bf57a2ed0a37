/**
 What the driver remembers: no status update is lost, whatever the interleaving
 of sends, records, acknowledgements and resubscriptions.
 */
module UpdateSafety {
  import opened Options
  import opened DriverProtocol

  /** The updates whose send returned without an error. */
  ghost function SentOk(tr: seq<Action>): set<Update> {
    set a | a in tr && a.SendReturned? && a.ok :: a.update
  }

  /** The updates that were put in the map at some time. */
  ghost function Recorded(tr: seq<Action>): set<Update> {
    set a | a in tr && a.Record? :: a.update
  }

  /** The UUIDs for which an acknowledgement was handled. */
  ghost function Acked(tr: seq<Action>): set<string> {
    set a | a in tr && a.Handles? && a.event.Acknowledged? :: a.event.uuid
  }

  predicate AcksUuid(a: Action, uuid: string) {
    a.Handles? && a.event.Acknowledged? && a.event.uuid == uuid
  }

  /** Some caller has the agent's reply for `u` and is about to put it in the map. */
  ghost predicate Held(s: State, u: Update) {
    exists call :: call in s.calls && s.calls[call] == Accepted(u)
  }

  /** What has happened to updates so far: the three sets above. */
  datatype Past = Past(sent: set<Update>, recorded: set<Update>, acked: set<string>)

  ghost function PastOf(tr: seq<Action>): Past {
    Past(SentOk(tr), Recorded(tr), Acked(tr))
  }

  ghost predicate SentNamed(s: State, sent: set<Update>) {
    && (forall u :: u in sent ==> u.uuid in s.uuids)
    && (forall u, v :: u in sent && v in sent && u.uuid == v.uuid ==> u == v)
  }

  ghost predicate CallsNamed(s: State) {
    && (forall call :: call in s.calls ==> s.calls[call].update.uuid in s.uuids)
    && (forall call, other :: call in s.calls && other in s.calls && call != other
          ==> s.calls[call].update.uuid != s.calls[other].update.uuid)
  }

  ghost predicate CallsApart(s: State, sent: set<Update>) {
    forall call, u :: call in s.calls && s.calls[call].Calling? && u in sent ==> s.calls[call].update.uuid != u.uuid
  }

  /** Each UUID names one update: NewStatus draws them at random. */
  ghost predicate Unambiguous(s: State, sent: set<Update>) {
    SentNamed(s, sent) && CallsNamed(s) && CallsApart(s, sent)
  }

  ghost predicate Remembered(s: State, p: Past) {
    && p.recorded <= p.sent
    && (forall uuid :: uuid in s.updates ==> s.updates[uuid].uuid == uuid && s.updates[uuid] in p.recorded)
    && (forall call :: call in s.calls && s.calls[call].Accepted? ==> s.calls[call].update in p.sent)
    && (forall u :: u in p.sent ==> u in p.recorded || Held(s, u))
    && (forall u :: u in p.recorded && u.uuid !in p.acked ==> u.uuid in s.updates)
  }

  ghost predicate UpdatesInv(s: State, p: Past) {
    Unambiguous(s, p.sent) && Remembered(s, p)
  }

  /** One step of history: only these three kinds of action are remembered. */
  ghost function PastAfter(p: Past, a: Action): Past {
    if a.SendReturned? && a.ok then p.(sent := p.sent + {a.update})
    else if a.Record? then p.(recorded := p.recorded + {a.update})
    else if a.Handles? && a.event.Acknowledged? then p.(acked := p.acked + {a.event.uuid})
    else p
  }

  lemma PastStep(tr: seq<Action>, a: Action)
    ensures PastOf(tr + [a]) == PastAfter(PastOf(tr), a)
  {
    var p, p' := PastAfter(PastOf(tr), a), PastOf(tr + [a]);
    assert p'.sent == p.sent;
    assert p'.recorded == p.recorded;
    assert p'.acked == p.acked;
  }

  lemma HeldStep(c: Config, s: State, a: Action, u: Update)
    requires Enabled(c, s, a)
    requires Held(s, u)
    ensures Held(Apply(c, s, a), u) || (a.Record? && a.update == u)
  {
    var call :| call in s.calls && s.calls[call] == Accepted(u);
    if !(a.Record? && a.call == call) {
      assert call in Apply(c, s, a).calls && Apply(c, s, a).calls[call] == Accepted(u);
    }
  }

  lemma AllHeldStep(c: Config, s: State, a: Action)
    requires Enabled(c, s, a)
    ensures forall u :: Held(s, u) ==> Held(Apply(c, s, a), u) || (a.Record? && a.update == u)
  {
    forall u | Held(s, u) ensures Held(Apply(c, s, a), u) || (a.Record? && a.update == u) {
      HeldStep(c, s, a, u);
    }
  }

  lemma SendKeepsSentNamed(c: Config, s: State, p: Past, a: Action)
    requires a.SendReturned? && Enabled(c, s, a) && Unambiguous(s, p.sent)
    ensures SentNamed(Apply(c, s, a), PastAfter(p, a).sent)
  {
    assert s.calls[a.call].update == a.update && a.update.uuid in s.uuids;
  }

  /** The calls in progress are the same or one less, each for the same update. */
  lemma SendKeepsCalls(c: Config, s: State, a: Action)
    requires a.SendReturned? && Enabled(c, s, a) && CallsNamed(s)
    ensures CallsNamed(Apply(c, s, a))
    ensures var s' := Apply(c, s, a);
            forall call :: call in s'.calls ==>
              && call in s.calls && s'.calls[call].update == s.calls[call].update
              && (s'.calls[call].Calling? ==> s.calls[call].Calling? && call != a.call)
  {
  }

  lemma SendKeepsUnambiguous(c: Config, s: State, p: Past, a: Action)
    requires a.SendReturned? && Enabled(c, s, a) && UpdatesInv(s, p)
    ensures Unambiguous(Apply(c, s, a), PastAfter(p, a).sent)
  {
    SendKeepsSentNamed(c, s, p, a);
    SendKeepsCalls(c, s, a);
  }

  lemma SendKeepsRemembered(c: Config, s: State, p: Past, a: Action)
    requires a.SendReturned? && Enabled(c, s, a) && UpdatesInv(s, p)
    ensures Remembered(Apply(c, s, a), PastAfter(p, a))
  {
    AllHeldStep(c, s, a);
    if a.ok {
      assert Apply(c, s, a).calls[a.call] == Accepted(a.update);
    }
  }

  lemma RecordKeeps(c: Config, s: State, p: Past, a: Action)
    requires a.Record? && Enabled(c, s, a) && UpdatesInv(s, p)
    ensures UpdatesInv(Apply(c, s, a), PastAfter(p, a))
  {
    AllHeldStep(c, s, a);
  }

  lemma BeginSendKeeps(c: Config, s: State, p: Past, a: Action)
    requires a.BeginSend? && Enabled(c, s, a) && UpdatesInv(s, p)
    ensures UpdatesInv(Apply(c, s, a), PastAfter(p, a))
  {
    AllHeldStep(c, s, a);
  }

  lemma HandlesKeeps(c: Config, s: State, p: Past, a: Action)
    requires a.Handles? && Enabled(c, s, a) && UpdatesInv(s, p)
    ensures UpdatesInv(Apply(c, s, a), PastAfter(p, a))
  {
    AllHeldStep(c, s, a);
  }

  /** All other steps leave the calls, the maps and the UUIDs alone. */
  lemma OtherStep(c: Config, s: State, a: Action)
    requires Enabled(c, s, a)
    requires !a.BeginSend? && !a.SendReturned? && !a.Record? && !a.Handles?
    ensures var s' := Apply(c, s, a);
            s'.calls == s.calls && s'.updates == s.updates && s'.uuids == s.uuids && s'.tasks == s.tasks
  {
  }

  lemma OtherKeeps(c: Config, s: State, p: Past, a: Action)
    requires Enabled(c, s, a) && UpdatesInv(s, p)
    requires !a.BeginSend? && !a.SendReturned? && !a.Record? && !a.Handles?
    ensures UpdatesInv(Apply(c, s, a), PastAfter(p, a))
  {
    OtherStep(c, s, a);
    AllHeldStep(c, s, a);
  }

  lemma StepKeepsUpdates(c: Config, s: State, p: Past, a: Action)
    requires Enabled(c, s, a) && UpdatesInv(s, p)
    ensures UpdatesInv(Apply(c, s, a), PastAfter(p, a))
  {
    if a.BeginSend? {
      BeginSendKeeps(c, s, p, a);
    } else if a.SendReturned? {
      SendKeepsUnambiguous(c, s, p, a);
      SendKeepsRemembered(c, s, p, a);
    } else if a.Record? {
      RecordKeeps(c, s, p, a);
    } else if a.Handles? {
      HandlesKeeps(c, s, p, a);
    } else {
      OtherKeeps(c, s, p, a);
    }
  }

  lemma {:induction false} UpdatesInvHolds(c: Config, tr: seq<Action>)
    requires Valid(c, tr)
    ensures UpdatesInv(After(c, tr), PastOf(tr))
  {
    if tr != [] {
      UpdatesInvHolds(c, Front(tr));
      StepKeepsUpdates(c, After(c, Front(tr)), PastOf(Front(tr)), Last(tr));
      PastStep(Front(tr), Last(tr));
      assert Front(tr) + [Last(tr)] == tr;
    }
  }

  /**
   No lost update. An update whose send succeeded and which was never
   acknowledged is in the map, under its own UUID, or in the hands of a caller
   that is about to put it there. Nothing that was not sent is in the map.
   */
  lemma NoLostUpdate(c: Config, tr: seq<Action>)
    requires Valid(c, tr)
    ensures var s := After(c, tr);
            && (forall u :: u in SentOk(tr) && u.uuid !in Acked(tr)
                  ==> Held(s, u) || (u.uuid in s.updates && s.updates[u.uuid] == u))
            && (forall uuid :: uuid in s.updates ==> s.updates[uuid] in SentOk(tr) && s.updates[uuid].uuid == uuid)
  {
    UpdatesInvHolds(c, tr);
  }

  // ----- Exactly which updates are in the map -----

  /** From index `i` on, no acknowledgement of `uuid` was handled. */
  ghost predicate UnackedFrom(tr: seq<Action>, i: nat, uuid: string) {
    forall j :: i <= j < |tr| ==> !AcksUuid(tr[j], uuid)
  }

  ghost predicate RecordedAt(tr: seq<Action>, i: nat, uuid: string) {
    i < |tr| && tr[i].Record? && tr[i].update.uuid == uuid
  }

  /** The map holds exactly the updates put there and not acknowledged since. */
  lemma {:induction false} MapIsRecordedSinceAck(c: Config, tr: seq<Action>, uuid: string)
    requires Valid(c, tr)
    ensures uuid in After(c, tr).updates <==> exists i: nat :: RecordedAt(tr, i, uuid) && UnackedFrom(tr, i, uuid)
  {
    if tr != [] {
      var p, a := Front(tr), Last(tr);
      MapIsRecordedSinceAck(c, p, uuid);
      UpdatesMapStep(c, After(c, p), a, uuid);
      assert p + [a] == tr;
      RecordedSinceAckStep(p, a, uuid);
    }
  }

  lemma UpdatesMapStep(c: Config, s: State, a: Action, uuid: string)
    requires Enabled(c, s, a)
    ensures uuid in Apply(c, s, a).updates
            <==> (a.Record? && a.update.uuid == uuid) || (uuid in s.updates && !AcksUuid(a, uuid))
  {
    if !a.BeginSend? && !a.SendReturned? && !a.Record? && !a.Handles? {
      OtherStep(c, s, a);
    }
  }

  lemma RecordedSinceAckStep(p: seq<Action>, a: Action, uuid: string)
    ensures (exists i: nat :: RecordedAt(p + [a], i, uuid) && UnackedFrom(p + [a], i, uuid))
            <==> (a.Record? && a.update.uuid == uuid)
                 || ((exists i: nat :: RecordedAt(p, i, uuid) && UnackedFrom(p, i, uuid)) && !AcksUuid(a, uuid))
  {
    var tr := p + [a];
    if i: nat :| RecordedAt(p, i, uuid) && UnackedFrom(p, i, uuid) && !AcksUuid(a, uuid) {
      assert RecordedAt(tr, i, uuid) && UnackedFrom(tr, i, uuid);
    }
    if i: nat :| RecordedAt(tr, i, uuid) && UnackedFrom(tr, i, uuid) && i < |p| {
      assert RecordedAt(p, i, uuid);
      assert forall j :: i <= j < |p| ==> p[j] == tr[j];
      assert UnackedFrom(p, i, uuid) && !AcksUuid(tr[|p|], uuid);
    }
    if a.Record? && a.update.uuid == uuid {
      assert RecordedAt(tr, |p|, uuid) && UnackedFrom(tr, |p|, uuid);
    }
  }

  /** An acknowledgement overtook the record it answers, and none came later. */
  ghost predicate Overtaken(tr: seq<Action>, i: nat) {
    && i < |tr| && tr[i].Record?
    && tr[i].update.uuid in Acked(tr[..i])
    && UnackedFrom(tr, i, tr[i].update.uuid)
  }

  ghost function Uuids(us: set<Update>): set<string> {
    set u | u in us :: u.uuid
  }

  /**
   When no caller is between its send and its record, the map is sent minus
   acknowledged exactly if no acknowledgement overtook a record.
   */
  lemma MapIsSentMinusAcked(c: Config, tr: seq<Action>)
    requires Valid(c, tr)
    requires forall u :: !Held(After(c, tr), u)
    ensures After(c, tr).updates.Keys == Uuids(SentOk(tr)) - Acked(tr) <==> forall i: nat :: !Overtaken(tr, i)
  {
    var s := After(c, tr);
    UpdatesInvHolds(c, tr);
    assert Uuids(SentOk(tr)) - Acked(tr) <= s.updates.Keys;
    forall uuid | uuid in s.updates
      ensures uuid in Acked(tr) <==> exists i: nat :: Overtaken(tr, i) && tr[i].update.uuid == uuid
    {
      MapIsRecordedSinceAck(c, tr, uuid);
      var i: nat :| RecordedAt(tr, i, uuid) && UnackedFrom(tr, i, uuid);
      AckedSplits(tr, i, uuid);
      if uuid in Acked(tr) {
        assert Overtaken(tr, i);
      }
      if k: nat :| Overtaken(tr, k) && tr[k].update.uuid == uuid {
        AckedSplits(tr, k, uuid);
      }
    }
    forall i: nat | Overtaken(tr, i) ensures tr[i].update.uuid in s.updates {
      MapIsRecordedSinceAck(c, tr, tr[i].update.uuid);
      assert RecordedAt(tr, i, tr[i].update.uuid);
    }
    assert forall uuid :: uuid in s.updates ==> s.updates[uuid] in SentOk(tr) && uuid in Uuids(SentOk(tr));
  }

  lemma AckedSplits(tr: seq<Action>, i: nat, uuid: string)
    requires i <= |tr|
    requires UnackedFrom(tr, i, uuid)
    ensures uuid in Acked(tr) <==> uuid in Acked(tr[..i])
  {
    if uuid in Acked(tr) {
      var a :| a in tr && AcksUuid(a, uuid);
      var j :| 0 <= j < |tr| && tr[j] == a;
      assert tr[..i][j] == a;
    }
  }

  /**
   The overtaking is possible: the agent acknowledges as soon as it has the
   update, which can be before the sender sees the reply. The entry then stays
   in the map, to be replayed, although it was acknowledged.
   */
  lemma AcknowledgedUpdateStays(c: Config, u: Update)
    ensures exists tr :: Valid(c, tr) && u.uuid in Acked(tr) && After(c, tr).updates == map[u.uuid := u]
                         && After(c, tr).calls == map[]
  {
    var e := Acknowledged(u.taskId, u.uuid);
    var ack := Handles(0, e);
    var t := FirstSession(c);
    t := Do(c, t, BeginSend(0, u));
    t := Do(c, t, Decoded(0, e));
    t := Do(c, t, ack);
    t := Do(c, t, SendReturned(0, u, true));
    t := Do(c, t, Record(0, u));
    assert ack in t && AcksUuid(ack, u.uuid);
  }

  lemma FirstSession(c: Config) returns (tr: seq<Action>)
    ensures Valid(c, tr)
    ensures After(c, tr) == Init(c).(phase := InLoop, sessions := [Session(Decoding, Looping, 0, [])])
  {
    tr := Do(c, [], ReadTasks([]));
    tr := Do(c, tr, ReadUpdates([]));
    tr := Do(c, tr, Subscribe([], []));
    tr := Do(c, tr, Connected);
  }

  // ----- The tasks -----

  predicate LaunchesTask(a: Action, t: Task) {
    a.Handles? && a.event == Launch(t)
  }

  predicate TouchesTask(a: Action, id: string) {
    a.Handles? && ((a.event.Launch? && a.event.task.id == id) || (a.event.Acknowledged? && a.event.taskId == id))
  }

  /** `t` was launched by step `i`, and since then nothing launched or acknowledged its ID. */
  ghost predicate LatestLaunch(tr: seq<Action>, i: nat, t: Task) {
    && i < |tr| && LaunchesTask(tr[i], t)
    && forall j :: i < j < |tr| ==> !TouchesTask(tr[j], t.id)
  }

  /**
   A task is in the map, hence in a snapshot taken now, exactly if it is the
   latest launch of its ID and no acknowledgement naming that ID was handled since.
   */
  lemma {:induction false} TaskPresent(c: Config, tr: seq<Action>, id: string, t: Task)
    requires Valid(c, tr)
    ensures (id in After(c, tr).tasks && After(c, tr).tasks[id] == t)
            <==> (t.id == id && exists i: nat :: LatestLaunch(tr, i, t))
  {
    if tr != [] {
      var p, a := Front(tr), Last(tr);
      TaskPresent(c, p, id, t);
      TasksMapStep(c, After(c, p), a, id);
      assert p + [a] == tr;
      LatestLaunchStep(p, a, t);
    }
  }

  lemma TasksMapStep(c: Config, s: State, a: Action, id: string)
    requires Enabled(c, s, a)
    ensures var s' := Apply(c, s, a);
            if a.Handles? && a.event.Launch? && a.event.task.id == id
            then id in s'.tasks && s'.tasks[id] == a.event.task
            else if TouchesTask(a, id) then id !in s'.tasks
            else (id in s'.tasks <==> id in s.tasks) && (id in s.tasks ==> s'.tasks[id] == s.tasks[id])
  {
    if !a.BeginSend? && !a.SendReturned? && !a.Record? && !a.Handles? {
      OtherStep(c, s, a);
    }
  }

  lemma LatestLaunchStep(p: seq<Action>, a: Action, t: Task)
    ensures (exists i: nat :: LatestLaunch(p + [a], i, t))
            <==> LaunchesTask(a, t) || ((exists i: nat :: LatestLaunch(p, i, t)) && !TouchesTask(a, t.id))
  {
    var tr := p + [a];
    if i: nat :| LatestLaunch(p, i, t) && !TouchesTask(a, t.id) {
      assert LatestLaunch(tr, i, t);
    }
    if i: nat :| LatestLaunch(tr, i, t) && i < |p| {
      assert p[i] == tr[i] && forall j :: i < j < |p| ==> p[j] == tr[j];
      assert LatestLaunch(p, i, t) && !TouchesTask(tr[|p|], t.id);
    }
    if LaunchesTask(a, t) {
      assert LatestLaunch(tr, |p|, t);
    }
  }

  // ----- What a SUBSCRIBE carries -----

  /** At step `r` Run read these tasks, and up to step `q` it took no other step. */
  ghost predicate TasksReadAt(c: Config, tr: seq<Action>, r: nat, q: nat, tasks: seq<Task>) {
    && r < q <= |tr| && tr[r] == ReadTasks(tasks)
    && forall k :: r < k <= q ==> PhaseAt(c, tr, k, TasksRead(tasks))
  }

  /** The same for the updates, which it read knowing these tasks. */
  ghost predicate UpdatesReadAt(c: Config, tr: seq<Action>, q: nat, i: nat, tasks: seq<Task>, updates: seq<Update>) {
    && q < i <= |tr| && tr[q] == ReadUpdates(updates)
    && forall k :: q < k <= i ==> PhaseAt(c, tr, k, UpdatesRead(tasks, updates))
  }

  ghost predicate PhaseAt(c: Config, tr: seq<Action>, k: nat, phase: Phase) {
    k <= |tr| && Valid(c, tr[..k]) && After(c, tr[..k]).phase == phase
  }

  /** Steps `r`, `q` and `i` of Run follow each other: it reads the tasks, reads the updates, sends both. */
  ghost predicate Subscribes(c: Config, tr: seq<Action>, r: nat, q: nat, i: nat) {
    && i < |tr| && tr[i].Subscribe?
    && TasksReadAt(c, tr, r, q, tr[i].tasks) && UpdatesReadAt(c, tr, q, i, tr[i].tasks, tr[i].updates)
  }

  lemma EntersTasksRead(c: Config, s: State, a: Action, tasks: seq<Task>)
    requires Enabled(c, s, a) && Apply(c, s, a).phase == TasksRead(tasks)
    ensures s.phase == TasksRead(tasks) || a == ReadTasks(tasks)
  {
  }

  lemma EntersUpdatesRead(c: Config, s: State, a: Action, tasks: seq<Task>, updates: seq<Update>)
    requires Enabled(c, s, a) && Apply(c, s, a).phase == UpdatesRead(tasks, updates)
    ensures s.phase == UpdatesRead(tasks, updates) || (a == ReadUpdates(updates) && s.phase == TasksRead(tasks))
  {
  }

  /** What holds at a step that is not the first, was so before it or came with it. */
  lemma StepBefore(c: Config, tr: seq<Action>, k: nat, phase: Phase)
    requires Valid(c, tr) && PhaseAt(c, tr, k, phase) && !phase.Ready?
    ensures k > 0 && Valid(c, tr[..k - 1]) && Enabled(c, After(c, tr[..k - 1]), tr[k - 1])
    ensures Apply(c, After(c, tr[..k - 1]), tr[k - 1]).phase == phase
  {
    assert tr[..0] == [];
    StepTaken(c, tr, k - 1);
  }

  lemma {:induction false} TasksWereRead(c: Config, tr: seq<Action>, q: nat, tasks: seq<Task>)
    requires Valid(c, tr) && PhaseAt(c, tr, q, TasksRead(tasks))
    ensures exists r: nat :: TasksReadAt(c, tr, r, q, tasks)
  {
    StepBefore(c, tr, q, TasksRead(tasks));
    EntersTasksRead(c, After(c, tr[..q - 1]), tr[q - 1], tasks);
    if PhaseAt(c, tr, q - 1, TasksRead(tasks)) {
      TasksWereRead(c, tr, q - 1, tasks);
      var r: nat :| TasksReadAt(c, tr, r, q - 1, tasks);
      assert TasksReadAt(c, tr, r, q, tasks);
    } else {
      assert TasksReadAt(c, tr, q - 1, q, tasks);
    }
  }

  lemma {:induction false} UpdatesWereRead(c: Config, tr: seq<Action>, i: nat, tasks: seq<Task>, updates: seq<Update>)
    requires Valid(c, tr) && PhaseAt(c, tr, i, UpdatesRead(tasks, updates))
    ensures exists q: nat :: UpdatesReadAt(c, tr, q, i, tasks, updates) && PhaseAt(c, tr, q, TasksRead(tasks))
  {
    StepBefore(c, tr, i, UpdatesRead(tasks, updates));
    EntersUpdatesRead(c, After(c, tr[..i - 1]), tr[i - 1], tasks, updates);
    if PhaseAt(c, tr, i - 1, UpdatesRead(tasks, updates)) {
      UpdatesWereRead(c, tr, i - 1, tasks, updates);
      var q: nat :| UpdatesReadAt(c, tr, q, i - 1, tasks, updates) && PhaseAt(c, tr, q, TasksRead(tasks));
      assert UpdatesReadAt(c, tr, q, i, tasks, updates);
    } else {
      assert UpdatesReadAt(c, tr, i - 1, i, tasks, updates);
    }
  }

  /** Every SUBSCRIBE is sent with a snapshot of the tasks, and a later one of the updates. */
  lemma SnapshotsWereTaken(c: Config, tr: seq<Action>, i: nat) returns (r: nat, q: nat)
    requires Valid(c, tr) && i < |tr| && tr[i].Subscribe?
    ensures Subscribes(c, tr, r, q, i)
  {
    StepTaken(c, tr, i);
    assert PhaseAt(c, tr, i, UpdatesRead(tr[i].tasks, tr[i].updates));
    UpdatesWereRead(c, tr, i, tr[i].tasks, tr[i].updates);
    q :| UpdatesReadAt(c, tr, q, i, tr[i].tasks, tr[i].updates) && PhaseAt(c, tr, q, TasksRead(tr[i].tasks));
    TasksWereRead(c, tr, q, tr[i].tasks);
    r :| TasksReadAt(c, tr, r, q, tr[i].tasks);
  }

  /** Sent, never acknowledged, and no longer in its sender's hands. */
  ghost predicate ToReplay(c: Config, tr: seq<Action>, u: Update)
    requires Valid(c, tr)
  {
    u in SentOk(tr) && u.uuid !in Acked(tr) && !Held(After(c, tr), u)
  }

  /** The list has all of these, once each, and nothing that was not sent. */
  ghost predicate ReplaysAll(c: Config, tr: seq<Action>, updates: seq<Update>) {
    && Valid(c, tr)
    && (forall u :: ToReplay(c, tr, u) ==> multiset(updates)[u] == 1)
    && (forall u :: u in updates ==> u in SentOk(tr))
  }

  /** A snapshot of the updates that is taken after `tr`. */
  lemma SnapshotReplaysAll(c: Config, tr: seq<Action>, updates: seq<Update>)
    requires Valid(c, tr) && Lists(updates, After(c, tr).updates)
    ensures ReplaysAll(c, tr, updates)
  {
    var s := After(c, tr);
    NoLostUpdate(c, tr);
    forall u | ToReplay(c, tr, u) ensures multiset(updates)[u] == 1 {
      InSnapshot(updates, s.updates, u);
      OccursOnce(s.updates, u);
    }
    forall u | u in updates ensures u in SentOk(tr) {
      InSnapshot(updates, s.updates, u);
    }
  }

  lemma OccursOnce(updates: map<string, Update>, u: Update)
    requires u.uuid in updates && updates[u.uuid] == u
    requires forall k :: k in updates ==> updates[k].uuid == k
    ensures Occurrences(updates, u) == 1
  {
    assert KeysHolding(updates, updates.Keys, u) == {u.uuid};
  }

  /**
   Every SUBSCRIBE carries, once each, all updates that were sent and never
   acknowledged when Run read them for it, except those still in the hands of their
   senders; and it carries nothing that was not sent.
   */
  lemma ResubscriptionReplays(c: Config, tr: seq<Action>, i: nat)
    requires Valid(c, tr) && i < |tr| && tr[i].Subscribe?
    ensures exists r: nat, q: nat :: Subscribes(c, tr, r, q, i) && ReplaysAll(c, tr[..q], tr[i].updates)
  {
    var r, q := SnapshotsWereTaken(c, tr, i);
    StepTaken(c, tr, q);
    SnapshotReplaysAll(c, tr[..q], tr[i].updates);
  }

  /** `u` was recorded, and no acknowledgement of it was handled since. */
  ghost predicate Pending(tr: seq<Action>, u: Update) {
    exists j: nat :: RecordedAt(tr, j, u.uuid) && tr[j].update == u && UnackedFrom(tr, j, u.uuid)
  }

  lemma PendingIsInMap(c: Config, tr: seq<Action>, u: Update)
    requires Valid(c, tr)
    ensures Pending(tr, u) <==> u.uuid in After(c, tr).updates && After(c, tr).updates[u.uuid] == u
  {
    UpdatesInvHolds(c, tr);
    MapIsRecordedSinceAck(c, tr, u.uuid);
    forall j: nat | RecordedAt(tr, j, u.uuid) ensures tr[j].update in Recorded(tr) {
      assert tr[j] in tr;
    }
  }

  /** Exactly: it carries those that were then recorded, and not acknowledged since. */
  lemma UpdatesInSubscribe(c: Config, tr: seq<Action>, i: nat)
    requires Valid(c, tr) && i < |tr| && tr[i].Subscribe?
    ensures exists r: nat, q: nat ::
              Subscribes(c, tr, r, q, i) && forall u :: u in tr[i].updates <==> Pending(tr[..q], u)
  {
    var r, q := SnapshotsWereTaken(c, tr, i);
    StepTaken(c, tr, q);
    NoLostUpdate(c, tr[..q]);
    forall u ensures u in tr[i].updates <==> Pending(tr[..q], u) {
      InSnapshot(tr[i].updates, After(c, tr[..q]).updates, u);
      PendingIsInMap(c, tr[..q], u);
    }
  }

  /** `t` is the latest launch of its ID, and no acknowledgement for that ID was handled since. */
  ghost predicate Live(tr: seq<Action>, t: Task) {
    exists j: nat :: LatestLaunch(tr, j, t)
  }

  /** And it carries exactly the tasks that were so when Run read the tasks for it. */
  lemma TasksInSubscribe(c: Config, tr: seq<Action>, i: nat)
    requires Valid(c, tr) && i < |tr| && tr[i].Subscribe?
    ensures exists r: nat, q: nat ::
              Subscribes(c, tr, r, q, i) && forall t: Task :: t in tr[i].tasks <==> Live(tr[..r], t)
  {
    var r, q := SnapshotsWereTaken(c, tr, i);
    StepTaken(c, tr, r);
    forall t: Task ensures t in tr[i].tasks <==> Live(tr[..r], t) {
      var tasks := After(c, tr[..r]).tasks;
      InSnapshot(tr[i].tasks, tasks, t);
      TaskPresent(c, tr[..r], t.id, t);
      forall id | id in tasks && tasks[id] == t ensures t.id == id {
        TaskPresent(c, tr[..r], id, t);
      }
    }
  }
}
