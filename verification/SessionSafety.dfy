/**
 The unbuffered channel between a session's decoder and its event loop: how far
 the decoder can run ahead, and what the event loop returns.
 */
module SessionSafety {
  import opened Options
  import opened DriverProtocol

  ghost predicate AllNil(results: seq<Option<Err>>) {
    forall i :: 0 <= i < |results| ==> results[i].None?
  }

  /** `results` ends in its first error, which is `err`. */
  ghost predicate FirstErrorLast(results: seq<Option<Err>>, err: Err) {
    results != [] && Last(results) == Some(err) && AllNil(Front(results))
  }

  ghost predicate SessionOk(session: Session, stopped: bool) {
    && session.rounds == |session.received| + (if session.decoder.Offering? || session.decoder.Exited? then 1 else 0)
    && (session.decoder.Exited? ==> stopped)
    && match session.loop
       case Looping => AllNil(session.received)
       case Returned(None) => stopped && AllNil(session.received)
       case Returned(Some(err)) => FirstErrorLast(session.received, err)
  }

  ghost predicate SessionsInv(s: State) {
    && (s.phase.InLoop? ==> s.sessions != [])
    && (forall k :: 0 <= k < |s.sessions| ==> SessionOk(s.sessions[k], s.stopped))
    && (forall k :: 0 <= k < |s.sessions| && s.sessions[k].loop.Looping? ==> s.phase.InLoop? && k == |s.sessions| - 1)
  }

  lemma DeliverKeeps(c: Config, s: State, k: nat)
    requires Enabled(c, s, Deliver(k)) && SessionsInv(s)
    ensures SessionsInv(Apply(c, s, Deliver(k)))
  {
    var s' := Apply(c, s, Deliver(k));
    var before, now := s.sessions[k], s'.sessions[k];
    assert Front(now.received) == before.received;
    assert SessionOk(before, s.stopped) && SessionOk(now, s'.stopped);
    assert forall j :: 0 <= j < |s.sessions| && j != k ==> s'.sessions[j] == s.sessions[j];
  }

  lemma StepKeepsSessions(c: Config, s: State, a: Action)
    requires Enabled(c, s, a) && SessionsInv(s)
    ensures SessionsInv(Apply(c, s, a))
  {
    if a.Deliver? {
      DeliverKeeps(c, s, a.session);
    } else {
      var s' := Apply(c, s, a);
      assert s.stopped ==> s'.stopped;
      forall k | 0 <= k < |s'.sessions| ensures SessionOk(s'.sessions[k], s'.stopped) {
        assert k < |s.sessions| ==> SessionOk(s.sessions[k], s.stopped);
      }
    }
  }

  lemma {:induction false} SessionsInvHolds(c: Config, tr: seq<Action>)
    requires Valid(c, tr)
    ensures SessionsInv(After(c, tr))
  {
    if tr != [] {
      SessionsInvHolds(c, Front(tr));
      StepKeepsSessions(c, After(c, Front(tr)), Last(tr));
    }
  }

  /**
   What eventLoop returns: nil only if the driver was stopped, and otherwise
   the first error it received, which is also the last thing it received.
   */
  lemma EventLoopResult(c: Config, tr: seq<Action>, k: nat)
    requires Valid(c, tr) && k < |After(c, tr).sessions|
    ensures var s := After(c, tr);
            match s.sessions[k].loop
            case Looping => AllNil(s.sessions[k].received)
            case Returned(None) => s.stopped && AllNil(s.sessions[k].received)
            case Returned(Some(err)) => FirstErrorLast(s.sessions[k].received, err)
  {
    SessionsInvHolds(c, tr);
    assert SessionOk(After(c, tr).sessions[k], After(c, tr).stopped);
  }

  predicate Starts(a: Action, k: nat) {
    (a.Decoded? || a.DecodeFailed?) && a.session == k
  }

  /** How many events session `k` started on: decoded, or failed to decode. */
  ghost function Decodes(tr: seq<Action>, k: nat): nat {
    if tr == [] then 0
    else Decodes(Front(tr), k) + if Starts(Last(tr), k) then 1 else 0
  }

  ghost function Started(s: State, k: nat): nat {
    if k < |s.sessions|
    then s.sessions[k].rounds + if s.sessions[k].decoder.Received? || s.sessions[k].decoder.Handling? then 1 else 0
    else 0
  }

  lemma StartedStep(c: Config, s: State, a: Action, k: nat)
    requires Enabled(c, s, a)
    ensures Started(Apply(c, s, a), k) == Started(s, k) + if Starts(a, k) then 1 else 0
  {
  }

  lemma {:induction false} DecodesAreStarted(c: Config, tr: seq<Action>, k: nat)
    requires Valid(c, tr)
    ensures Decodes(tr, k) == Started(After(c, tr), k)
  {
    if tr != [] {
      DecodesAreStarted(c, Front(tr), k);
      StartedStep(c, After(c, Front(tr)), Last(tr), k);
    }
  }

  /** A decoder ends only when the driver was stopped. */
  lemma DecodersOutlive(c: Config, tr: seq<Action>, k: nat)
    requires Valid(c, tr) && k < |After(c, tr).sessions| && !After(c, tr).stopped
    ensures !After(c, tr).sessions[k].decoder.Exited?
  {
    SessionsInvHolds(c, tr);
    assert SessionOk(After(c, tr).sessions[k], After(c, tr).stopped);
  }

  /** The decoder is never more than one event ahead of what the event loop took. */
  lemma RendezvousBound(c: Config, tr: seq<Action>, k: nat)
    requires Valid(c, tr) && k < |After(c, tr).sessions|
    ensures var session := After(c, tr).sessions[k];
            |session.received| <= session.rounds <= Decodes(tr, k) <= |session.received| + 1
  {
    SessionsInvHolds(c, tr);
    DecodesAreStarted(c, tr, k);
    assert SessionOk(After(c, tr).sessions[k], After(c, tr).stopped);
  }

  lemma ReturnedStep(c: Config, s: State, a: Action, k: nat)
    requires Enabled(c, s, a) && k < |s.sessions| && s.sessions[k].loop.Returned?
    ensures var s' := Apply(c, s, a);
            k < |s'.sessions| && s'.sessions[k].loop.Returned? && s'.sessions[k].received == s.sessions[k].received
  {
  }

  lemma {:induction false} ReturnedForGood(c: Config, tr: seq<Action>, i: nat, k: nat)
    requires Valid(c, tr) && i <= |tr| && Valid(c, tr[..i])
    requires k < |After(c, tr[..i]).sessions| && After(c, tr[..i]).sessions[k].loop.Returned?
    ensures var s := After(c, tr);
            && k < |s.sessions| && s.sessions[k].loop.Returned?
            && s.sessions[k].received == After(c, tr[..i]).sessions[k].received
    decreases |tr|
  {
    if i == |tr| {
      assert tr[..i] == tr;
    } else {
      var p := Front(tr);
      assert p[..i] == tr[..i];
      ReturnedForGood(c, p, i, k);
      ReturnedStep(c, After(c, p), Last(tr), k);
    }
  }

  /** After eventLoop returned, its decoder starts on at most one more event. */
  lemma AtMostOneMoreEvent(c: Config, tr: seq<Action>, i: nat, k: nat)
    requires Valid(c, tr) && i <= |tr| && Valid(c, tr[..i])
    requires k < |After(c, tr[..i]).sessions| && After(c, tr[..i]).sessions[k].loop.Returned?
    ensures Decodes(tr, k) <= Decodes(tr[..i], k) + 1
  {
    ReturnedForGood(c, tr, i, k);
    RendezvousBound(c, tr, k);
    RendezvousBound(c, tr[..i], k);
  }

  // ----- Nothing gets lost between decoder and event loop -----

  /** The event that session `k` decoded last. */
  ghost function LastEvent(tr: seq<Action>, k: nat): Option<Event> {
    if tr == [] then None
    else
      match Last(tr)
      case Decoded(j, e) => if j == k then Some(e) else LastEvent(Front(tr), k)
      case _ => LastEvent(Front(tr), k)
  }

  /** What the decoder of session `k` had to offer so far: each failure to decode, and what each handler returned. */
  ghost function Offered(tr: seq<Action>, k: nat): seq<Option<Err>> {
    if tr == [] then []
    else
      var before := Offered(Front(tr), k);
      match Last(tr)
      case DecodeFailed(j, err) => if j == k then before + [Some(err)] else before
      case Handled(j) =>
        if j == k then before + [if LastEvent(Front(tr), k) == Some(Error) then Some(Aborted) else None] else before
      case _ => before
  }

  /** `offered` and `last` are what the session's history says of it. */
  ghost predicate ChannelInv(s: State, k: nat, offered: seq<Option<Err>>, last: Option<Event>) {
    if k >= |s.sessions| then offered == []
    else
      var received := s.sessions[k].received;
      match s.sessions[k].decoder
      case Decoding => offered == received
      case Received(e) => offered == received && last == Some(e)
      case Handling(e) => offered == received && last == Some(e)
      case Offering(result) => offered == received + [result]
      case Exited => offered != [] && received == Front(offered)
  }

  lemma ChannelStep(c: Config, s: State, a: Action, k: nat, offered: seq<Option<Err>>, last: Option<Event>)
    requires Enabled(c, s, a) && ChannelInv(s, k, offered, last)
    ensures ChannelInv(Apply(c, s, a), k,
                       if a.DecodeFailed? && a.session == k then offered + [Some(a.err)]
                       else if a.Handled? && a.session == k
                       then offered + [if last == Some(Error) then Some(Aborted) else None]
                       else offered,
                       if a.Decoded? && a.session == k then Some(a.event) else last)
  {
  }

  lemma {:induction false} ChannelHolds(c: Config, tr: seq<Action>, k: nat)
    requires Valid(c, tr)
    ensures ChannelInv(After(c, tr), k, Offered(tr, k), LastEvent(tr, k))
  {
    if tr != [] {
      var p := Front(tr);
      ChannelHolds(c, p, k);
      ChannelStep(c, After(c, p), Last(tr), k, Offered(p, k), LastEvent(p, k));
    }
  }

  /**
   The event loop receives what the decoder offers, in order: all of it but for the
   one thing that the decoder may still be offering, or took with it when it ended.
   */
  lemma ReceivedIsOffered(c: Config, tr: seq<Action>, k: nat)
    requires Valid(c, tr) && k < |After(c, tr).sessions|
    ensures var session := After(c, tr).sessions[k];
            && session.received <= Offered(tr, k) && |Offered(tr, k)| <= |session.received| + 1
            && (session.received == Offered(tr, k) <==> !session.decoder.Offering? && !session.decoder.Exited?)
  {
    ChannelHolds(c, tr, k);
  }
}
