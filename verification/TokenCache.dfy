/**
 The Vault token that all executors on a host share through a file. Each looks
 at the file's age, reads it, validates the token, or else logs in and rewrites
 the file; the file can be rewritten between any two of these.
 */
module TokenCache {
  import opened Options

  // All times in seconds.
  const TOKEN_GRACE_PERIOD := 3600
  const STARTUP_GRACE_PERIOD := 600
  const DEFAULT_TOKEN_TTL := 86400

  /** GetTTL: `vaultTtl` is what strconv.Atoi makes of VAULT_TTL, 0 if it cannot be read, None if it is not set. */
  function GetTTL(vaultTtl: Option<int>): int {
    if vaultTtl.None? then DEFAULT_TOKEN_TTL else vaultTtl.value
  }

  /** The test of the file's age. */
  predicate TooOld(ttl: int, mtime: int, now: int) {
    mtime < now + (0 - ttl + TOKEN_GRACE_PERIOD)
  }

  /** A file can be young enough, once it is written, exactly if the TTL is no less than the grace period. */
  lemma CachePossible(ttl: int, mtime: int)
    ensures (exists now :: mtime <= now && !TooOld(ttl, mtime, now)) <==> ttl >= 3600
  {
    if ttl >= 3600 {
      assert !TooOld(ttl, mtime, mtime);
    }
  }

  // ----- Many executors, one file -----

  /** `content` is "" while the file is being written. */
  datatype File = File(content: string, mtime: int)

  datatype Executor =
    | Start
    | Statted(mtime: int)
    | Trusting(checked: int)                  // the file passed the test of its age at this time
    | Holding(token: string, checked: int)    // and this is what it had when it was read
    | Using(token: string, checked: int)      // which Vault found valid
    | MustLogin
    | Renewed(token: string, at: int)         // logged in, and renewed the token at this time
    | Emptied(token: string, at: int)         // has begun to write the file
    | Ready(token: string)

  /** `expiry` is when Vault lets a token expire. */
  datatype State = State(now: int, file: Option<File>, expiry: map<string, int>, execs: map<nat, Executor>)

  datatype Action =
    | Tick(elapsed: nat)
    | Appears(e: nat)
    | Stats(e: nat)
    | Tests(e: nat)
    | Reads(e: nat)
    | ReadFails(e: nat)
    | Validates(e: nat, valid: bool)
    | LogsIn(e: nat, token: string)
    | Truncates(e: nat)
    | Fills(e: nat)
    | WriteFails(e: nat)

  function Init(start: int): State {
    State(start, None, map[], map[])
  }

  /** Logins give new tokens; a write is assumed to end within ten minutes of the renewal. */
  predicate Enabled(s: State, a: Action) {
    match a
    case Tick(_) => true
    case Appears(e) => e !in s.execs
    case Stats(e) => e in s.execs && s.execs[e].Start?
    case Tests(e) => e in s.execs && s.execs[e].Statted?
    case Reads(e) => e in s.execs && s.execs[e].Trusting? && s.file.Some?
    case ReadFails(e) => e in s.execs && s.execs[e].Trusting?
    case Validates(e, _) => e in s.execs && s.execs[e].Holding?
    case LogsIn(e, token) => e in s.execs && s.execs[e].MustLogin? && token != "" && token !in s.expiry
    case Truncates(e) => e in s.execs && s.execs[e].Renewed?
    case Fills(e) => e in s.execs && s.execs[e].Emptied? && s.now <= s.execs[e].at + 600
    case WriteFails(e) => e in s.execs && (s.execs[e].Renewed? || s.execs[e].Emptied?)
  }

  function Apply(ttl: int, s: State, a: Action): State
    requires Enabled(s, a)
  {
    match a
    case Tick(elapsed) => s.(now := s.now + elapsed)
    case Appears(e) => s.(execs := s.execs[e := Start])
    case Stats(e) => s.(execs := s.execs[e := if s.file.Some? then Statted(s.file.value.mtime) else MustLogin])
    case Tests(e) =>
      s.(execs := s.execs[e := if TooOld(ttl, s.execs[e].mtime, s.now) then MustLogin else Trusting(s.now)])
    case Reads(e) =>
      var token := s.file.value.content;
      s.(execs := s.execs[e := if token == "" then MustLogin else Holding(token, s.execs[e].checked)])
    case ReadFails(e) => s.(execs := s.execs[e := MustLogin])
    case Validates(e, valid) =>
      s.(execs := s.execs[e := if valid then Using(s.execs[e].token, s.execs[e].checked) else MustLogin])
    case LogsIn(e, token) =>
      s.(expiry := s.expiry[token := s.now + ttl + STARTUP_GRACE_PERIOD], execs := s.execs[e := Renewed(token, s.now)])
    case Truncates(e) =>
      s.(file := Some(File("", s.now)), execs := s.execs[e := Emptied(s.execs[e].token, s.execs[e].at)])
    case Fills(e) => s.(file := Some(File(s.execs[e].token, s.now)), execs := s.execs[e := Ready(s.execs[e].token)])
    case WriteFails(e) => s.(execs := s.execs[e := Ready(s.execs[e].token)])
  }

  function Exec(ttl: int, start: int, tr: seq<Action>): Option<State> {
    if tr == [] then Some(Init(start))
    else
      match Exec(ttl, start, Front(tr))
      case None => None
      case Some(s) => if Enabled(s, Last(tr)) then Some(Apply(ttl, s, Last(tr))) else None
  }

  predicate Valid(ttl: int, start: int, tr: seq<Action>) {
    Exec(ttl, start, tr).Some?
  }

  function After(ttl: int, start: int, tr: seq<Action>): State
    requires Valid(ttl, start, tr)
  {
    Exec(ttl, start, tr).value
  }

  /** The token lives at least until then. */
  predicate Lives(s: State, token: string, time: int) {
    token in s.expiry && s.expiry[token] >= time
  }

  ghost predicate FileInv(ttl: int, s: State) {
    s.file.Some? ==>
      && s.file.value.mtime <= s.now
      && (s.file.value.content != "" ==> Lives(s, s.file.value.content, s.file.value.mtime + ttl))
  }

  ghost predicate ExecutorInv(ttl: int, s: State, x: Executor) {
    match x
    case Statted(mtime) => s.file.Some? && mtime <= s.file.value.mtime
    case Trusting(checked) =>
      && s.file.Some? && checked + TOKEN_GRACE_PERIOD <= s.file.value.mtime + ttl
      && ttl >= TOKEN_GRACE_PERIOD
    case Holding(token, checked) => Lives(s, token, checked + TOKEN_GRACE_PERIOD) && ttl >= TOKEN_GRACE_PERIOD
    case Using(token, checked) => Lives(s, token, checked + TOKEN_GRACE_PERIOD) && ttl >= TOKEN_GRACE_PERIOD
    case Renewed(token, at) => Lives(s, token, at + ttl + STARTUP_GRACE_PERIOD)
    case Emptied(token, at) => Lives(s, token, at + ttl + STARTUP_GRACE_PERIOD)
    case _ => true
  }

  ghost predicate Inv(ttl: int, s: State) {
    FileInv(ttl, s) && forall e :: e in s.execs ==> ExecutorInv(ttl, s, s.execs[e])
  }

  lemma StepKeepsInv(ttl: int, s: State, a: Action)
    requires Enabled(s, a) && Inv(ttl, s)
    ensures Inv(ttl, Apply(ttl, s, a))
  {
    var s' := Apply(ttl, s, a);
    forall e | e in s'.execs ensures ExecutorInv(ttl, s', s'.execs[e]) {
      assert e in s.execs ==> ExecutorInv(ttl, s, s.execs[e]);
    }
  }

  lemma {:induction false} InvHolds(ttl: int, start: int, tr: seq<Action>)
    requires Valid(ttl, start, tr)
    ensures Inv(ttl, After(ttl, start, tr))
  {
    if tr != [] {
      InvHolds(ttl, start, Front(tr));
      StepKeepsInv(ttl, After(ttl, start, Front(tr)), Last(tr));
    }
  }

  /**
   A token taken from the file has at least the grace period left when the file's
   age is tested, whoever wrote it, and even if it was rewritten after the test.
   With a TTL below the grace period no token is ever taken from the file.
   */
  lemma CachedTokenIsFresh(ttl: int, start: int, tr: seq<Action>, e: nat)
    requires Valid(ttl, start, tr)
    requires e in After(ttl, start, tr).execs && After(ttl, start, tr).execs[e].Using?
    ensures var s := After(ttl, start, tr);
            && Lives(s, s.execs[e].token, s.execs[e].checked + 3600)
            && ttl >= 3600
  {
    InvHolds(ttl, start, tr);
    var s := After(ttl, start, tr);
    assert ExecutorInv(ttl, s, s.execs[e]);
  }

  /** No executor uses a token from the file that it did not find valid. */
  lemma {:induction false} UsedWasValidated(ttl: int, start: int, tr: seq<Action>, e: nat)
    requires Valid(ttl, start, tr)
    requires e in After(ttl, start, tr).execs && After(ttl, start, tr).execs[e].Using?
    ensures Validates(e, true) in tr
  {
    var p, a := Front(tr), Last(tr);
    assert tr == p + [a];
    if e in After(ttl, start, p).execs && After(ttl, start, p).execs[e].Using? {
      UsedWasValidated(ttl, start, p, e);
    } else {
      BecomesUsing(ttl, After(ttl, start, p), a, e);
    }
  }

  lemma BecomesUsing(ttl: int, s: State, a: Action, e: nat)
    requires Enabled(s, a) && e in Apply(ttl, s, a).execs && Apply(ttl, s, a).execs[e].Using?
    ensures (e in s.execs && s.execs[e].Using?) || a == Validates(e, true)
  {
  }

  // ----- One executor -----

  /** The file named by VAULT_TOKEN_FILE; if the variable is not set, a file that is not there and cannot be written. */
  class TokenFile {
    var present: bool
    var content: string
    var mtime: int
  }

  /** How the calls of one GetToken turn out. */
  datatype Reply = Reply(
    now: int,
    read: bool,
    valid: bool,
    credentials: bool,
    login: Option<string>,
    renewed: bool,
    writtenAt: Option<int>)

  class TokenClient {
    const ttl: int
    var token: string

    constructor (ttl: int)
      ensures this.ttl == ttl && token == ""
    {
      this.ttl := ttl;
      token := "";
    }

    /** A token that was in the file when it was last written can end then, if Vault honoured the TTL. */
    predicate MayEnd(file: TokenFile, end: int)
      reads file
    {
      end >= file.mtime + ttl
    }

    /**
     GetTokenFromFile: what the file has, exactly if it is there, can be read, and is
     sure to last for the grace period.
     */
    method GetTokenFromFile(file: TokenFile, now: int, read: bool) returns (found: Option<string>)
      ensures found.Some? ==> found.value == file.content
      ensures found.Some? <==>
                file.present && read && forall end :: MayEnd(file, end) ==> end - now >= 3600
    {
      assert MayEnd(file, file.mtime + ttl);
      if !file.present {
        return None;
      }
      if TooOld(ttl, file.mtime, now) {
        return None;
      }
      if !read {
        return None;
      }
      return Some(file.content);
    }

    /** GetTokenWithLogin: the client gets the token before it is renewed, and keeps it if the renewal fails. */
    method GetTokenWithLogin(r: Reply) returns (got: Option<string>)
      modifies this
      ensures got == if r.credentials && r.renewed then r.login else None
      ensures token == if r.credentials && r.login.Some? then r.login.value else old(token)
    {
      if !r.credentials {
        return None;
      }
      if r.login.None? {
        return None;
      }
      token := r.login.value;
      if !r.renewed {
        return None;
      }
      return r.login;
    }

    method CacheToken(file: TokenFile, content: string, writtenAt: Option<int>)
      modifies file
      ensures writtenAt.None? ==> unchanged(file)
      ensures writtenAt.Some? ==> file.present && file.content == content && file.mtime == writtenAt.value
    {
      if writtenAt.Some? {
        file.present, file.content, file.mtime := true, content, writtenAt.value;
      }
    }

    /** The file's token can be used: it is there, young enough, can be read, and Vault accepts it. */
    predicate Usable(file: TokenFile, r: Reply)
      reads file
    {
      file.present && !TooOld(ttl, file.mtime, r.now) && r.read && file.content != "" && r.valid
    }

    /**
     GetToken: the file's token if it can be used, and then the file is left alone;
     else a new one, which is also put in the file.
     */
    method GetToken(file: TokenFile, r: Reply) returns (ok: bool)
      modifies this, file
      ensures old(Usable(file, r)) ==> ok && token == old(file.content) && unchanged(file)
      ensures ok <==> old(Usable(file, r)) || (r.credentials && r.login.Some? && r.renewed)
      ensures ok && (!r.valid || !r.read || !old(file.present) || old(file.content) == "") ==>
                Some(token) == r.login
      ensures ok && old(file.mtime) + ttl - r.now < 3600 ==> Some(token) == r.login
      ensures !old(Usable(file, r)) && ok ==>
                token == r.login.value
                && (r.writtenAt.Some? ==> file.present && file.content == token && file.mtime == r.writtenAt.value)
      ensures !ok ==> unchanged(file)
    {
      var cached := GetTokenFromFile(file, r.now, r.read);
      assert MayEnd(file, file.mtime + ttl);
      if cached.Some? && cached.value != "" {
        token := cached.value;    // Validate sets it on the client
        if r.valid {
          return true;
        }
      }
      var newToken := GetTokenWithLogin(r);
      if newToken.None? {
        return false;
      }
      CacheToken(file, newToken.value, r.writtenAt);
      return true;
    }
  }
}
