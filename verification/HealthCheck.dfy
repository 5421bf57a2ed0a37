/**
 The count of failed Sidecar health checks: a mutable counter, bumped and reset
 poll by poll, is a function of the whole history of polls.
 */
module HealthCheck {
  import opened Options
  import opened Arithmetic

  datatype ServiceStatus = Alive | Tombstone | Unhealthy | Unknown | Draining

  /** A reply of Sidecar that was read in full. */
  datatype Body = Garbled | HostMissing | ServiceMissing | Service(status: ServiceStatus)

  /** What one call of sidecarStatus learned. */
  datatype Poll = Good | Bad | Inconclusive

  /** The states of a service that count against it. */
  predicate ShouldBeKilled(status: ServiceStatus) {
    status.Unhealthy? || status.Tombstone?
  }

  /** Sidecar says of the service, in the first reply it gives, that it is in one of these states. */
  ghost predicate Reports(fetch: nat -> Option<Body>, retryCount: int, states: set<ServiceStatus>) {
    exists i: nat :: FirstReply(fetch, retryCount, i) && fetch(i).value.Service? && fetch(i).value.status in states
  }

  function Classify(body: Body): Poll {
    match body
    case Service(status) => if ShouldBeKilled(status) then Bad else Good
    case _ => Inconclusive
  }

  /** Which attempt is the first to get a reply, among those that the retry count allows. */
  predicate FirstReply(fetch: nat -> Option<Body>, retryCount: int, i: nat) {
    i <= retryCount && fetch(i).Some? && forall j: nat :: j < i ==> fetch(j).None?
  }

  /** The poll that a call makes of the replies to its attempts. */
  ghost predicate Learned(fetch: nat -> Option<Body>, retryCount: int, poll: Poll) {
    if i: nat :| FirstReply(fetch, retryCount, i) then poll == Classify(fetch(i).value) else poll == Inconclusive
  }

  /** What follows from a fetch that ended with this reply after so many attempts. */
  lemma FetchTells(fetch: nat -> Option<Body>, retryCount: int, reply: Option<Body>, attempts: nat)
    requires reply.Some? ==> attempts > 0 && reply == fetch(attempts - 1)
                             && FirstReply(fetch, retryCount, attempts - 1)
    requires reply.None? ==> attempts == (if retryCount < 0 then 0 else retryCount + 1)
                             && forall j: nat :: j < attempts ==> fetch(j).None?
    ensures Learned(fetch, retryCount, if reply.Some? then Classify(reply.value) else Inconclusive)
    ensures forall states :: Reports(fetch, retryCount, states)
                             <==> reply.Some? && reply.value.Service? && reply.value.status in states
  {
    forall i: nat | FirstReply(fetch, retryCount, i) ensures reply.Some? && i == attempts - 1 {
    }
  }

  // ----- The specification, over the history -----

  /** With a negative SidecarMaxFails the first failure already exceeds it. */
  function Limit(maxFails: int): nat {
    if maxFails < 0 then 0 else maxFails
  }

  /** How many polls were bad since the last good one; inconclusive ones do not count. */
  function Streak(polls: seq<Poll>): nat {
    if polls == [] then 0
    else
      match Last(polls)
      case Good => 0
      case Bad => Streak(Front(polls)) + 1
      case Inconclusive => Streak(Front(polls))
  }

  /** The verdict on the last poll: within a streak, every (MaxFails + 1)th bad poll fails the task. */
  predicate Kills(maxFails: int, polls: seq<Poll>) {
    polls != [] && Last(polls).Bad? && Streak(polls) % (Limit(maxFails) + 1) == 0
  }

  /** The verdicts on the conclusive polls, in order. */
  function Verdicts(maxFails: int, polls: seq<Poll>): seq<bool> {
    if polls == [] then []
    else if Last(polls).Inconclusive? then Verdicts(maxFails, Front(polls))
    else Verdicts(maxFails, Front(polls)) + [Kills(maxFails, polls)]
  }

  function Conclusive(polls: seq<Poll>): seq<Poll> {
    if polls == [] then []
    else if Last(polls).Inconclusive? then Conclusive(Front(polls))
    else Conclusive(Front(polls)) + [Last(polls)]
  }

  /** How many polls were bad since the last good poll or the last kill verdict. */
  function BadSinceReset(maxFails: int, polls: seq<Poll>): nat {
    if polls == [] then 0
    else if Last(polls).Good? || Kills(maxFails, polls) then 0
    else BadSinceReset(maxFails, Front(polls)) + if Last(polls).Bad? then 1 else 0
  }

  /** The count since the last reset is the streak modulo MaxFails + 1, hence at most MaxFails. */
  lemma {:induction false} CountSinceReset(maxFails: int, polls: seq<Poll>)
    ensures BadSinceReset(maxFails, polls) == Streak(polls) % (Limit(maxFails) + 1)
    ensures BadSinceReset(maxFails, polls) <= Limit(maxFails)
  {
    var m := Limit(maxFails) + 1;
    if polls == [] {
      Residue(0, 0, 0, m);
    } else {
      CountSinceReset(maxFails, Front(polls));
      match Last(polls)
      case Good => Residue(0, 0, 0, m);
      case Bad => NextModulo(Streak(Front(polls)), m);
      case Inconclusive =>
    }
  }

  /** What one more poll does to the count, and when it kills. */
  lemma OneMorePoll(maxFails: int, polls: seq<Poll>, poll: Poll)
    ensures Kills(maxFails, polls + [poll]) <==> poll.Bad? && BadSinceReset(maxFails, polls) == Limit(maxFails)
    ensures BadSinceReset(maxFails, polls + [poll]) ==
            if poll.Good? || Kills(maxFails, polls + [poll]) then 0
            else BadSinceReset(maxFails, polls) + if poll.Bad? then 1 else 0
    ensures BadSinceReset(maxFails, polls + [poll]) <= Limit(maxFails)
  {
    assert Front(polls + [poll]) == polls;
    CountSinceReset(maxFails, polls);
    CountSinceReset(maxFails, polls + [poll]);
    NextModulo(Streak(polls), Limit(maxFails) + 1);
  }

  lemma {:induction false} StreakOfConclusive(polls: seq<Poll>)
    ensures Streak(Conclusive(polls)) == Streak(polls)
  {
    if polls != [] {
      StreakOfConclusive(Front(polls));
      assert Front(Conclusive(Front(polls)) + [Last(polls)]) == Conclusive(Front(polls));
    }
  }

  /** Failing to reach Sidecar, however often and whenever, changes no verdict. */
  lemma {:induction false} InconclusivePollsDoNotMatter(maxFails: int, polls: seq<Poll>)
    ensures Verdicts(maxFails, Conclusive(polls)) == Verdicts(maxFails, polls)
  {
    if polls != [] {
      InconclusivePollsDoNotMatter(maxFails, Front(polls));
      StreakOfConclusive(polls);
      assert Front(Conclusive(Front(polls)) + [Last(polls)]) == Conclusive(Front(polls));
    }
  }

  // ----- The counter -----

  class HealthMonitor {
    const maxFails: int
    const retryCount: int
    var failCount: int
    ghost var polls: seq<Poll>

    /** The counter is the count of the specification. */
    ghost predicate Valid()
      reads this
    {
      failCount == BadSinceReset(maxFails, polls)
    }

    constructor (maxFails: int, retryCount: int)
      ensures Valid() && polls == [] && this.maxFails == maxFails && this.retryCount == retryCount
    {
      this.maxFails, this.retryCount := maxFails, retryCount;
      failCount, polls := 0, [];
    }

    predicate ExceededFailCount()
      reads this
    {
      failCount >= maxFails
    }

    /** Fetches Sidecar's state, trying again as often as configured; no attempt is made after a reply. */
    method Fetch(fetch: nat -> Option<Body>) returns (reply: Option<Body>, attempts: nat)
      ensures reply.Some? ==> attempts > 0 && reply == fetch(attempts - 1)
                              && FirstReply(fetch, retryCount, attempts - 1)
      ensures reply.None? ==> attempts == (if retryCount < 0 then 0 else retryCount + 1)
                              && forall j: nat :: j < attempts ==> fetch(j).None?
    {
      reply, attempts := None, 0;
      while attempts <= retryCount
        invariant attempts <= if retryCount < 0 then 0 else retryCount + 1
        invariant reply.None? && forall j: nat :: j < attempts ==> fetch(j).None?
      {
        reply := fetch(attempts);
        attempts := attempts + 1;
        if reply.Some? {
          return;
        }
      }
    }

    /** One health check; `kill` is the error that fails the task. */
    method SidecarStatus(fetch: nat -> Option<Body>) returns (kill: bool)
      requires Valid()
      modifies this
      ensures Valid() && |polls| == |old(polls)| + 1 && Front(polls) == old(polls)
      ensures Learned(fetch, retryCount, Last(polls))
      ensures Last(polls).Bad? <==> Reports(fetch, retryCount, {Unhealthy, Tombstone})
      ensures Last(polls).Good? <==> Reports(fetch, retryCount, {Alive, ServiceStatus.Unknown, Draining})
      ensures kill <==> Kills(maxFails, polls)
      ensures 0 <= failCount <= Limit(maxFails)
    {
      var reply, attempts := Fetch(fetch);
      FetchTells(fetch, retryCount, reply, attempts);
      ghost var poll := if reply.Some? then Classify(reply.value) else Inconclusive;
      polls := polls + [poll];
      OneMorePoll(maxFails, old(polls), poll);
      if reply.None? || !reply.value.Service? {
        return false;   // cannot tell: assumed healthy
      }
      if ShouldBeKilled(reply.value.status) {
        if !ExceededFailCount() {
          failCount := failCount + 1;
          return false;
        }
        failCount := 0;
        return true;
      }
      failCount := 0;
      return false;
    }
  }
}
