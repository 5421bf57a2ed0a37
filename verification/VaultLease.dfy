/**
 The timing of AWS credentials: a private token and a lease are asked for with
 paddings of 600 and 360 seconds, so that the time at which the executor shuts
 itself down comes before either expires in Vault.
 */
module VaultLease {
  import opened Options

  // Seconds.
  const DEFAULT_AWS_ROLE_TTL := 3600
  const STARTUP_GRACE_PERIOD := 600
  const LEASE_PADDING := 360

  const SECOND := 1_000_000_000

  /** Durations in nanoseconds; 0 means not set. */
  datatype Config = Config(roleTtl: int, roleMaxTtl: int)

  /** Go's integer division, which rounds toward zero. */
  function Quo(a: int, b: int): (q: int)
    requires b > 0
    ensures if a >= 0 then q * b <= a < q * b + b else q * b - b < a <= q * b
  {
    if a >= 0 then a / b else -(-a / b)
  }

  // ----- What Vault is asked for -----

  /** The TTL wanted for the credentials, in seconds. */
  function WantedTtl(c: Config): int {
    if c.roleTtl == 0 then DEFAULT_AWS_ROLE_TTL else Quo(c.roleTtl, SECOND)
  }

  function TokenIncrement(c: Config): int {
    WantedTtl(c) + STARTUP_GRACE_PERIOD
  }

  function LeaseIncrement(ttl: int): int {
    ttl + LEASE_PADDING
  }

  /** A lease reply: Vault's time when it granted the lease, ours when we had read the reply. */
  datatype LeaseReply = LeaseReply(id: string, duration: int, granted: int, received: int)

  /** When Vault ends the lease. */
  function LeaseEnd(r: LeaseReply): int {
    r.granted + r.duration
  }

  /** The expiry that the executor records, and at which it shuts down. */
  function RecordedExpiry(r: LeaseReply): int {
    r.received + (r.duration - LEASE_PADDING)
  }

  /** How the calls of getAWSRoleVaultToken turn out; the token was renewed at this time. */
  datatype TokenReply = TokenReply(login: Option<string>, renewedAt: Option<int>)

  /** The private token, and when it ends if Vault grants the increment asked for. */
  datatype Token = Token(id: string, end: int)

  /** Too long a TTL is refused before Vault is asked; a limit of 0 is none. */
  predicate TtlAllowed(c: Config) {
    c.roleTtl == 0 || c.roleMaxTtl == 0 || c.roleTtl <= c.roleMaxTtl
  }

  class EnvVault {
    const cfg: Config
    var clientToken: string
    var token: Option<Token>

    constructor (cfg: Config)
      ensures this.cfg == cfg && token.None? && clientToken == ""
    {
      this.cfg := cfg;
      token := None;
      clientToken := "";
    }

    /** getAWSRoleVaultToken: the client gets the token on login, the executor only once it is renewed. */
    method GetAWSRoleVaultToken(r: TokenReply) returns (ok: bool)
      modifies this
      ensures ok <==> TtlAllowed(cfg) && r.login.Some? && r.renewedAt.Some?
      ensures ok ==> cfg.roleTtl == 0 || cfg.roleMaxTtl == 0 || cfg.roleTtl <= cfg.roleMaxTtl
      ensures ok ==> token == Some(Token(r.login.value, r.renewedAt.value + TokenIncrement(cfg)))
      ensures ok ==> var wanted := token.value.end - r.renewedAt.value - 600;
                     if cfg.roleTtl == 0 then wanted == 3600
                     else if cfg.roleTtl > 0 then wanted * SECOND <= cfg.roleTtl < wanted * SECOND + SECOND
                     else wanted * SECOND - SECOND < cfg.roleTtl <= wanted * SECOND
      ensures !ok ==> token == old(token)
      ensures clientToken == if TtlAllowed(cfg) && r.login.Some? then r.login.value else old(clientToken)
    {
      var ttl := DEFAULT_AWS_ROLE_TTL;
      if cfg.roleTtl != 0 {
        if cfg.roleTtl > cfg.roleMaxTtl && cfg.roleMaxTtl != 0 {
          return false;
        }
        ttl := Quo(cfg.roleTtl, SECOND);
      }
      if r.login.None? {
        return false;
      }
      clientToken := r.login.value;
      if r.renewedAt.None? {
        return false;
      }
      token := Some(Token(r.login.value, r.renewedAt.value + ttl + STARTUP_GRACE_PERIOD));
      return true;
    }
  }

  // ----- Watching the lease -----

  /** During the `i`th wait: the expiry that a renewal sets, if there is one; and how late the timer fires. */
  datatype Waits = Waits(renewedTo: nat -> Option<int>, late: nat -> nat)

  /** Renewals only ever postpone the expiry. */
  ghost predicate NeverShortened(w: Waits, expiry: int) {
    && (forall i: nat :: w.renewedTo(i).Some? ==> expiry <= w.renewedTo(i).value)
    && (forall i: nat, j: nat :: i < j && w.renewedTo(i).Some? && w.renewedTo(j).Some?
          ==> w.renewedTo(i).value <= w.renewedTo(j).value)
  }

  class LeaseHolder {
    const cfg: Config
    var leaseId: string
    var expiry: int
    var leaseEnd: int    // when Vault ends the lease, which the program does not see

    constructor (cfg: Config)
      ensures this.cfg == cfg
    {
      this.cfg := cfg;
      leaseId, expiry, leaseEnd := "", 0, 0;
    }

    /** AddAndMonitorVaultAWSKeys and SetVaultAWSTTL both end with this. */
    method TakeLease(r: LeaseReply)
      modifies this
      ensures leaseId == r.id && expiry == RecordedExpiry(r) && leaseEnd == LeaseEnd(r)
    {
      leaseId := r.id;
      expiry := r.received + (r.duration - LEASE_PADDING);
      leaseEnd := r.granted + r.duration;
    }

    /** The lease that LaunchTask ends up with: renewed for the wanted TTL if one is set. */
    method SetUpLease(first: Option<LeaseReply>, renewal: Option<LeaseReply>) returns (ok: bool)
      modifies this
      ensures ok <==> first.Some? && (cfg.roleTtl != 0 ==> renewal.Some?)
      ensures ok ==> var r := if cfg.roleTtl != 0 then renewal.value else first.value;
                     leaseId == r.id && expiry == RecordedExpiry(r) && leaseEnd == LeaseEnd(r)
    {
      if first.None? {
        return false;
      }
      TakeLease(first.value);
      if cfg.roleTtl != 0 {
        if renewal.None? {
          return false;
        }
        TakeLease(renewal.value);
      }
      return true;
    }

    /**
     monitorAWSCredsLease, for at most `patience` waits. It never signals while the
     expiry that is recorded then lies ahead. If no renewal brings the expiry
     forward, it signals at most `slack` after it, unless it had passed at the start.
     */
    method MonitorAWSCredsLease(start: int, w: Waits, patience: nat, ghost slack: nat) returns (signalAt: Option<int>)
      requires forall i: nat :: w.late(i) <= slack
      modifies this`expiry
      ensures signalAt.Some? ==> expiry <= signalAt.value
      ensures signalAt.Some? && NeverShortened(w, old(expiry))
              ==> signalAt == Some(start) || signalAt.value <= expiry + slack
      ensures (forall i: nat :: w.renewedTo(i).None?) ==> expiry == old(expiry) && (patience > 0 ==> signalAt.Some?)
    {
      var now, waits := start, 0;
      while expiry > now && waits < patience
        invariant waits <= patience
        invariant expiry == old(expiry) || exists k: nat :: k < waits && w.renewedTo(k) == Some(expiry)
        invariant NeverShortened(w, old(expiry)) ==> now == start || now <= expiry + slack
        invariant (forall i: nat :: w.renewedTo(i).None?) ==> expiry == old(expiry) && (waits > 0 ==> expiry <= now)
        decreases patience - waits
      {
        var target := expiry;
        var renewal := w.renewedTo(waits);
        if renewal.Some? {
          expiry := renewal.value;
        }
        now := target + w.late(waits);
        waits := waits + 1;
      }
      return if expiry > now then None else Some(now);
    }
  }

  // ----- Never outliving the credentials -----

  /** Shutting down at `time` outlives neither the lease nor the token it depends on. */
  predicate InTime(time: int, leaseEnd: int, tokenEnd: int) {
    time <= leaseEnd && time <= tokenEnd
  }

  /**
   A shutdown `slack` after the recorded expiry is in time exactly if the reply to
   the lease request was read within 360 seconds of the grant, less the slack, and
   within 600 of the token's renewal, less the slack and what was granted beyond
   the increment asked for. With the full grant the expiry is now + TTL.
   */
  lemma PaddingsCompose(c: Config, renewedAt: int, r: LeaseReply, slack: nat)
    ensures InTime(RecordedExpiry(r) + slack, LeaseEnd(r), renewedAt + TokenIncrement(c))
            <==> && r.received - r.granted <= 360 - slack
                 && r.received - renewedAt <= 600 - slack - (r.duration - LeaseIncrement(WantedTtl(c)))
    ensures r.duration == LeaseIncrement(WantedTtl(c)) ==> RecordedExpiry(r) == r.received + WantedTtl(c)
  {
  }

  /** A shutdown right at the recorded expiry is in time. */
  predicate ExpiresInTime(c: Config, renewedAt: int, r: LeaseReply) {
    InTime(RecordedExpiry(r), LeaseEnd(r), renewedAt + TokenIncrement(c))
  }

  /**
   Without a TTL the lease is not renewed, and has the duration that Vault gives by
   default. The shutdown is too late for the token, however soon after the token's
   renewal the lease comes, exactly if that duration is beyond what the token was
   asked for and the padding of the lease together.
   */
  lemma DefaultTtlOutlivesToken(c: Config, duration: int)
    requires c.roleTtl == 0
    ensures duration > 3600 + 600 + 360
            <==> forall renewedAt: int, r: LeaseReply ::
                   renewedAt <= r.received && r.duration == duration ==> !ExpiresInTime(c, renewedAt, r)
  {
    if duration <= 3600 + 600 + 360 {
      assert ExpiresInTime(c, 0, LeaseReply("", duration, 0, 0));
    }
  }

  /** The lease in force: the renewed one if a TTL is set. */
  function InForce(c: Config, first: LeaseReply, renewal: Option<LeaseReply>): LeaseReply {
    if c.roleTtl != 0 && renewal.Some? then renewal.value else first
  }

  /**
   The whole chain, from the start of the executor to its shutting itself down;
   that the private token could not be had is only logged. The shutdown comes at
   the recorded expiry, at most `slack` late, or at once if that had passed; and
   it outlives neither the lease nor the private token if the delays are within
   the paddings.
   */
  method HoldCredentials(vault: EnvVault, holder: LeaseHolder, t: TokenReply, first: Option<LeaseReply>,
                         renewal: Option<LeaseReply>, start: int, w: Waits, ghost slack: nat)
    returns (gotToken: bool, gotLease: bool, signalAt: Option<int>)
    requires vault.cfg == holder.cfg
    requires forall i: nat :: w.late(i) <= slack && w.renewedTo(i).None?
    modifies vault, holder
    ensures gotToken <==> TtlAllowed(vault.cfg) && t.login.Some? && t.renewedAt.Some?
    ensures gotLease <==> first.Some? && (vault.cfg.roleTtl != 0 ==> renewal.Some?)
    ensures gotLease ==>
              var r := InForce(vault.cfg, first.value, renewal);
              && signalAt.Some? && holder.expiry == RecordedExpiry(r) <= signalAt.value
              && (signalAt.value == start || signalAt.value <= RecordedExpiry(r) + slack)
    ensures gotToken && gotLease && start <= holder.expiry ==>
              var r := InForce(vault.cfg, first.value, renewal);
              r.received - r.granted <= 360 - slack
              && r.duration <= LeaseIncrement(WantedTtl(vault.cfg))
              && r.received - t.renewedAt.value <= 600 - slack
              ==> vault.token.Some? && InTime(signalAt.value, holder.leaseEnd, vault.token.value.end)
  {
    signalAt := None;
    gotToken := vault.GetAWSRoleVaultToken(t);
    gotLease := holder.SetUpLease(first, renewal);
    if gotLease {
      signalAt := holder.MonitorAWSCredsLease(start, w, 1, slack);
      if gotToken {
        PaddingsCompose(vault.cfg, t.renewedAt.value, InForce(vault.cfg, first.value, renewal), slack);
      }
    }
  }
}
