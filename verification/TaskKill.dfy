/**
 Killing a task: Sidecar is asked to drain the service, the container is
 stopped, the looper is told to quit.
 */
module TaskKill {
  import opened Options
  import opened Arithmetic

  /** A POST's status code, or None if there was no reply. */
  type PostReply = Option<int>

  datatype Effect = Posted(reply: PostReply) | StopCalled | InspectCalled | LooperQuit

  /** Durations are in one unit; `urlOk` is whether the Sidecar URL parses. */
  datatype Config = Config(
    labels: map<string, string>,
    drainingDuration: nat,
    urlOk: bool,
    containerID: string,
    retryCount: int,
    retryDelay: nat)

  /**
   What the drain cannot decide: the reply to each POST and how long it took,
   whether the watcher was seen to be done after it, and when, if at all, the
   watcher ends the final wait.
   */
  datatype Environment = Environment(
    post: nat -> PostReply,
    took: nat -> nat,
    watcherDone: nat -> bool,
    exitAfter: Option<nat>)

  /** How a StopContainer call turns out; `exited` is None if the inspection fails. */
  datatype StopReply = StopReply(exited: Option<bool>, secondOk: bool)

  const FALSE_SPELLINGS := {"0", "f", "F", "false", "FALSE", "False"}
  const TRUE_SPELLINGS := {"1", "t", "T", "true", "TRUE", "True"}

  /** strconv.ParseBool. */
  function ParseBool(value: string): Option<bool> {
    if value in TRUE_SPELLINGS then Some(true)
    else if value in FALSE_SPELLINGS then Some(false)
    else None
  }

  /** Health checking is on unless the label says no in a way that can be parsed. */
  function ShouldCheckSidecar(labels: map<string, string>): (check: bool)
    ensures !check <==> "SidecarDiscover" in labels && labels["SidecarDiscover"] in FALSE_SPELLINGS
  {
    if "SidecarDiscover" !in labels then true
    else
      match ParseBool(labels["SidecarDiscover"])
      case Some(enabled) => enabled
      case None => true
  }

  predicate Drains(c: Config) {
    ShouldCheckSidecar(c.labels) && c.drainingDuration != 0 && c.urlOk && c.containerID != ""
  }

  /** How many POSTs the retry count allows. */
  function MaxPosts(c: Config): nat {
    if c.retryCount < 0 then 0 else c.retryCount + 1
  }

  /** Nothing after this POST calls for another one. */
  predicate EndsPosting(env: Environment, i: nat) {
    env.post(i) == Some(202) || env.watcherDone(i)
  }

  function PostEffects(env: Environment, n: nat): seq<Effect> {
    seq(n, i requires 0 <= i => Posted(env.post(i)))
  }

  /** What the first `n` POSTs and the pauses between them take; there is no pause after the one that ends them. */
  function PostTime(c: Config, env: Environment, n: nat): nat {
    if n == 0 then 0
    else PostTime(c, env, n - 1) + env.took(n - 1) + if EndsPosting(env, n - 1) then 0 else c.retryDelay
  }

  /** The wait after the POSTs: the draining duration, unless the watcher's exit cuts it short. */
  function FinalWait(c: Config, env: Environment): nat {
    if env.exitAfter.Some? && env.exitAfter.value <= c.drainingDuration then env.exitAfter.value else c.drainingDuration
  }

  lemma {:induction false} PostTimeBound(c: Config, env: Environment, n: nat, slowest: nat)
    requires forall i: nat :: env.took(i) <= slowest
    ensures PostTime(c, env, n) <= n * (slowest + c.retryDelay)
  {
    if n > 0 {
      PostTimeBound(c, env, n - 1, slowest);
      Spread(n, slowest + c.retryDelay);
    }
  }

  ghost function TookInAll(env: Environment, n: nat): nat {
    if n == 0 then 0 else TookInAll(env, n - 1) + env.took(n - 1)
  }

  lemma {:induction false} PostTimeBefore(c: Config, env: Environment, n: nat)
    requires forall i: nat :: i < n ==> !EndsPosting(env, i)
    ensures PostTime(c, env, n) == TookInAll(env, n) + n * c.retryDelay
  {
    if n > 0 {
      PostTimeBefore(c, env, n - 1);
      Spread(n, c.retryDelay);
    }
  }

  /**
   A pause follows each POST, also the last that the retry count allows, except one
   that got a 202 or after which the watcher was seen to be done.
   */
  lemma PostTimeIs(c: Config, env: Environment, n: nat)
    requires PostsMade(c, env, n)
    ensures var ended := n > 0 && (env.post(n - 1) == Some(202) || env.watcherDone(n - 1));
            PostTime(c, env, n) == TookInAll(env, n) + (if ended then n - 1 else n) * c.retryDelay
  {
    if n > 0 {
      PostTimeBefore(c, env, n - 1);
      Spread(n, c.retryDelay);
    }
  }

  /** The bound on a drain, when no POST takes longer than `slowest`. */
  lemma DrainTimeBound(c: Config, env: Environment, n: nat, slowest: nat)
    requires n <= MaxPosts(c)
    requires forall i: nat :: env.took(i) <= slowest
    ensures PostTime(c, env, n) + FinalWait(c, env) <= MaxPosts(c) * (slowest + c.retryDelay) + c.drainingDuration
  {
    PostTimeBound(c, env, n, slowest);
    Scale(n, MaxPosts(c), slowest + c.retryDelay);
  }

  /**
   Exactly the first `n` POSTs are made: each but the last called for another, and
   the last did not, or was the last allowed.
   */
  predicate PostsMade(c: Config, env: Environment, n: nat) {
    && n <= MaxPosts(c)
    && (forall i: nat :: i + 1 < n ==> !EndsPosting(env, i))
    && (n < MaxPosts(c) ==> n > 0 && EndsPosting(env, n - 1))
  }

  /** The retry loop: at most MaxPosts POSTs, none after a 202 or after the watcher was seen to be done. */
  method PostDrain(c: Config, env: Environment) returns (log: seq<Effect>, elapsed: nat)
    ensures |log| <= if c.retryCount < 0 then 0 else c.retryCount + 1
    ensures forall i: nat :: i + 1 < |log| ==> env.post(i) != Some(202) && !env.watcherDone(i)
    ensures |log| <= c.retryCount ==> log != [] && (env.post(|log| - 1) == Some(202) || env.watcherDone(|log| - 1))
    ensures PostsMade(c, env, |log|) && log == PostEffects(env, |log|)
    ensures elapsed == PostTime(c, env, |log|)
  {
    log, elapsed := [], 0;
    var i := 0;
    while i <= c.retryCount
      invariant |log| == i <= MaxPosts(c) && log == PostEffects(env, i)
      invariant forall j: nat :: j < i ==> !EndsPosting(env, j)
      invariant forall j: nat :: j < i ==> env.post(j) != Some(202) && !env.watcherDone(j)
      invariant elapsed == PostTime(c, env, i)
    {
      var status := env.post(i);
      log := log + [Posted(status)];
      elapsed := elapsed + env.took(i);
      if status == Some(202) {
        break;
      }
      if env.watcherDone(i) {
        break;
      }
      elapsed := elapsed + c.retryDelay;
      i := i + 1;
    }
  }

  /** notifyDrain: nothing at all, or the POSTs and then the final wait. */
  method NotifyDrain(c: Config, env: Environment) returns (log: seq<Effect>, elapsed: nat)
    ensures c.drainingDuration == 0 || !c.urlOk || c.containerID == "" || !ShouldCheckSidecar(c.labels)
            ==> log == [] && elapsed == 0
    ensures !Drains(c) ==> log == [] && elapsed == 0
    ensures Drains(c) ==> PostsMade(c, env, |log|) && elapsed == PostTime(c, env, |log|) + FinalWait(c, env)
    ensures Drains(c) && (env.exitAfter.None? || env.exitAfter.value >= c.drainingDuration) ==>
              elapsed == PostTime(c, env, |log|) + c.drainingDuration
    ensures Drains(c) && env.exitAfter.Some? && env.exitAfter.value <= c.drainingDuration ==>
              elapsed == PostTime(c, env, |log|) + env.exitAfter.value
    ensures log == PostEffects(env, |log|)
  {
    if !ShouldCheckSidecar(c.labels) || c.drainingDuration == 0 {
      return [], 0;
    }
    if !c.urlOk {
      return [], 0;
    }
    if c.containerID == "" {
      return [], 0;
    }
    log, elapsed := PostDrain(c, env);
    if env.exitAfter.Some? && env.exitAfter.value <= c.drainingDuration {
      elapsed := elapsed + env.exitAfter.value;
    } else {
      elapsed := elapsed + c.drainingDuration;
    }
  }

  function StopEffects(r: StopReply): seq<Effect> {
    [StopCalled, InspectCalled] + if r.exited == Some(false) then [StopCalled] else []
  }

  /**
   StopContainer. It succeeds exactly if the container was seen to have exited
   after the first attempt: the state is not read again after the second.
   */
  method StopContainer(r: StopReply) returns (ok: bool, log: seq<Effect>)
    ensures ok <==> r.exited == Some(true)
    ensures log == [StopCalled, InspectCalled] || log == [StopCalled, InspectCalled, StopCalled]
    ensures |log| == 3 <==> r.exited == Some(false)
    ensures log == StopEffects(r)
  {
    log := [StopCalled, InspectCalled];
    if r.exited.None? {
      return false, log;
    }
    if r.exited.value {
      return true, log;
    }
    log := log + [StopCalled];
    if !r.secondOk {
      return false, log;
    }
    return r.exited.value, log;
  }

  /**
   The kill callback: all POSTs come before the attempt to stop, and that before
   the quit. Up to the quit it takes no longer than the bound on a drain, the
   attempt to stop not counted.
   */
  method KillTask(c: Config, env: Environment, r: StopReply, ghost slowest: nat)
    returns (log: seq<Effect>, drained: nat, ghost posts: nat)
    requires forall i: nat :: env.took(i) <= slowest
    ensures log == PostEffects(env, posts) + StopEffects(r) + [LooperQuit]
    ensures if Drains(c) then PostsMade(c, env, posts) else posts == 0
    ensures drained <= MaxPosts(c) * (slowest + c.retryDelay) + c.drainingDuration
  {
    log, drained := NotifyDrain(c, env);
    posts := |log|;
    if Drains(c) {
      DrainTimeBound(c, env, posts, slowest);
    }
    var ok, stops := StopContainer(r);
    log := log + stops + [LooperQuit];
  }
}
