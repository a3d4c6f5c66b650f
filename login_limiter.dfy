/** The login rate limiter (backend/internal/middleware/login_limiter.go): a
    counter of failed logins per (email, ip), with bans that grow with the
    count and a reset on a successful login. The request body, the status
    the login handler writes and the three clock readings of the middleware
    are parameters; times are minutes. */
module LoginLimiter {
  import opened Common
  import opened Entities
  import opened Database

  const MethodPost: string := "POST"
  const LoginPath: string := "/v1/login/access-token"
  const BodyReadError: string := "Failed to read request body"
  const BadEmailError: string := "Email is not specified or the request body is incorrect"

  /** `AddDate(100, 0, 0)` taken as 36524 days (see README, "Left out"). */
  const HundredYearsMinutes: int := 36524 * 24 * 60

  /** The request body as the middleware sees it: unreadable, not a JSON
      login request, or one carrying `email`. */
  datatype LoginBody = Unreadable | Malformed | Parsed(email: string)

  /** What the middleware does with a request. `Blocked(until)` is the 429
      answer whose message names the end of the ban; `Handled(status)` means
      the chain ran and the login handler wrote `status`. */
  datatype LimiterOutcome =
    | PassedThrough
    | Aborted(status: int, error: string)
    | Blocked(until: int)
    | Handled(status: int)

  /** The answer and the new attempt table. */
  datatype Step = Step(outcome: LimiterOutcome, table: map<AttemptKey, LoginAttempt>)

  /** The zero LoginAttempt a failed lookup leaves behind. */
  const NoAttempt: LoginAttempt := LoginAttempt("", "", 0, 0, None)

  function Stored(table: map<AttemptKey, LoginAttempt>, key: AttemptKey): LoginAttempt
  {
    if key in table then table[key] else NoAttempt
  }

  /** `time.Now().Before(*BannedUntil)`. */
  predicate Banned(a: LoginAttempt, now: int)
  {
    a.bannedUntil.Some? && now < a.bannedUntil.value
  }

  /** The ban length set after a failure that brings the count to `attempts`;
      None when no new ban is set. */
  function BanMinutes(attempts: int): (r: Option<int>)
    ensures r.Some? <==> attempts >= 3
    ensures attempts >= 9 ==> r == Some(HundredYearsMinutes)
    ensures 6 <= attempts < 9 ==> r == Some(10)
    ensures 3 <= attempts < 6 ==> r == Some(5)
  {
    if attempts >= 9 then Some(HundredYearsMinutes)
    else if attempts >= 6 then Some(10)
    else if attempts >= 3 then Some(5)
    else None
  }

  /** The record saved after a failed login: one more attempt, stamped at
      `stampTime`, banned from `banTime` on when the count calls for it,
      otherwise keeping the earlier ban. */
  function AfterFailure(a: LoginAttempt, key: AttemptKey, stampTime: int, banTime: int): (r: LoginAttempt)
    ensures r.attempts == a.attempts + 1 && r.lastAttempt == stampTime
    ensures r.email == key.email && r.ip == key.ip
    ensures r.attempts >= 3 ==> r.bannedUntil == Some(banTime + BanMinutes(r.attempts).value)
    ensures r.attempts < 3 ==> r.bannedUntil == a.bannedUntil
  {
    var n := a.attempts + 1;
    var ban := BanMinutes(n);
    LoginAttempt(key.email, key.ip, n, stampTime,
                 if ban.Some? then Some(banTime + ban.value) else a.bannedUntil)
  }

  /** The middleware as a function of the table before the request. */
  function Limit(table: map<AttemptKey, LoginAttempt>, httpMethod: string, fullPath: string,
                 body: LoginBody, ip: string, now: int, stampTime: int, banTime: int,
                 handlerStatus: int): Step
  {
    if httpMethod != MethodPost || fullPath != LoginPath then Step(PassedThrough, table)
    else if body.Unreadable? then Step(Aborted(StatusBadRequest, BodyReadError), table)
    else if body.Malformed? || body.email == "" then Step(Aborted(StatusBadRequest, BadEmailError), table)
    else
      var key := AttemptKey(body.email, ip);
      var a := Stored(table, key);
      if Banned(a, now) then Step(Blocked(a.bannedUntil.value), table)
      else if handlerStatus == StatusOK then Step(Handled(handlerStatus), table - {key})
      else Step(Handled(handlerStatus), table[key := AfterFailure(a, key, stampTime, banTime)])
  }

  /** LoginLimiterMiddleware for one request. */
  method LoginLimiterMiddleware(db: Db, httpMethod: string, fullPath: string, body: LoginBody,
                                ip: string, now: int, stampTime: int, banTime: int,
                                handlerStatus: int)
    returns (o: LimiterOutcome)
    modifies db`loginAttempts
    ensures Step(o, db.loginAttempts) ==
            Limit(old(db.loginAttempts), httpMethod, fullPath, body, ip, now, stampTime, banTime, handlerStatus)
  {
    if httpMethod != MethodPost || fullPath != LoginPath {
      return PassedThrough;
    }
    if body.Unreadable? {
      return Aborted(StatusBadRequest, BodyReadError);
    }
    if body.Malformed? || body.email == "" {
      return Aborted(StatusBadRequest, BadEmailError);
    }
    var email := body.email;
    var key := AttemptKey(email, ip);
    var attempt := NoAttempt;
    if key in db.loginAttempts {
      attempt := db.loginAttempts[key];
    }
    if attempt.bannedUntil.Some? && now < attempt.bannedUntil.value {
      return Blocked(attempt.bannedUntil.value);
    }
    // the login handler runs here and writes `handlerStatus`
    if handlerStatus == StatusOK {
      db.loginAttempts := db.loginAttempts - {key};
      return Handled(handlerStatus);
    }
    var before := attempt;
    attempt := attempt.(email := email, ip := ip, lastAttempt := stampTime);
    attempt := attempt.(attempts := attempt.attempts + 1);
    if attempt.attempts >= 9 {
      attempt := attempt.(bannedUntil := Some(banTime + HundredYearsMinutes));
    } else if attempt.attempts >= 6 {
      attempt := attempt.(bannedUntil := Some(banTime + 10));
    } else if attempt.attempts >= 3 {
      attempt := attempt.(bannedUntil := Some(banTime + 5));
    }
    assert attempt == AfterFailure(before, key, stampTime, banTime);
    // Create for a new pair, Save for a stored one: either way the key now holds `attempt`
    db.loginAttempts := db.loginAttempts[key := attempt];
    o := Handled(handlerStatus);
  }

  // ---- properties ----

  /** Every request other than POST to the login path passes through with
      the table untouched. */
  lemma OtherRequestsPassThrough(table: map<AttemptKey, LoginAttempt>, httpMethod: string, fullPath: string,
                                 body: LoginBody, ip: string, now: int, stampTime: int, banTime: int,
                                 handlerStatus: int)
    requires httpMethod != MethodPost || fullPath != LoginPath
    ensures Limit(table, httpMethod, fullPath, body, ip, now, stampTime, banTime, handlerStatus)
            == Step(PassedThrough, table)
  {
  }

  /** A body without a usable email aborts with 400, before the handler
      runs, and records nothing. */
  lemma BadBodyAborts(table: map<AttemptKey, LoginAttempt>, body: LoginBody, ip: string,
                      now: int, stampTime: int, banTime: int, handlerStatus: int)
    requires !body.Parsed? || body.email == ""
    ensures var s := Limit(table, MethodPost, LoginPath, body, ip, now, stampTime, banTime, handlerStatus);
      s.outcome.Aborted? && s.outcome.status == StatusBadRequest && s.table == table
  {
  }

  /** While the pair is banned the answer is 429 and the counter does not
      move, whatever the handler would have answered. */
  lemma BannedPairIsBlocked(table: map<AttemptKey, LoginAttempt>, email: string, ip: string,
                            now: int, stampTime: int, banTime: int, handlerStatus: int)
    requires email != ""
    requires Banned(Stored(table, AttemptKey(email, ip)), now)
    ensures var s := Limit(table, MethodPost, LoginPath, Parsed(email), ip, now, stampTime, banTime, handlerStatus);
      s.outcome.Blocked? && now < s.outcome.until && s.table == table
  {
  }

  /** A successful login deletes the pair's record: the next failure counts
      from one again. */
  lemma SuccessResetsCounter(table: map<AttemptKey, LoginAttempt>, email: string, ip: string,
                             now: int, stampTime: int, banTime: int)
    requires email != ""
    requires !Banned(Stored(table, AttemptKey(email, ip)), now)
    ensures var s := Limit(table, MethodPost, LoginPath, Parsed(email), ip, now, stampTime, banTime, StatusOK);
      && s.outcome == Handled(StatusOK)
      && AttemptKey(email, ip) !in s.table
      && Stored(s.table, AttemptKey(email, ip)).attempts == 0
  {
  }

  /** A failed login adds exactly one attempt, stamped at the clock reading,
      and creates the record when the pair had none. */
  lemma FailureCountsOne(table: map<AttemptKey, LoginAttempt>, email: string, ip: string,
                         now: int, stampTime: int, banTime: int, handlerStatus: int)
    requires email != "" && handlerStatus != StatusOK
    requires !Banned(Stored(table, AttemptKey(email, ip)), now)
    ensures var key := AttemptKey(email, ip);
      var s := Limit(table, MethodPost, LoginPath, Parsed(email), ip, now, stampTime, banTime, handlerStatus);
      && s.outcome == Handled(handlerStatus)
      && key in s.table
      && s.table[key].attempts == Stored(table, key).attempts + 1
      && s.table[key].lastAttempt == stampTime
      && s.table[key].email == email && s.table[key].ip == ip
  {
  }

  /** Counters are kept per (email, ip): no request touches another pair. */
  lemma OtherPairsUnaffected(table: map<AttemptKey, LoginAttempt>, httpMethod: string, fullPath: string,
                             body: LoginBody, ip: string, now: int, stampTime: int, banTime: int,
                             handlerStatus: int, other: AttemptKey)
    requires body.Parsed? ==> other != AttemptKey(body.email, ip)
    ensures var s := Limit(table, httpMethod, fullPath, body, ip, now, stampTime, banTime, handlerStatus);
      (other in s.table <==> other in table) && (other in table ==> s.table[other] == table[other])
  {
  }

  /** The length of a newly set ban never decreases as the count grows. */
  lemma BanLengthMonotone(a: int, b: int)
    requires 3 <= a <= b
    ensures BanMinutes(a).Some? && BanMinutes(b).Some?
    ensures BanMinutes(a).value <= BanMinutes(b).value
  {
  }

  /** The record after `n` failed logins in a row, all stamped and banned at `t`. */
  function Failures(a: LoginAttempt, key: AttemptKey, n: nat, t: int): LoginAttempt
  {
    if n == 0 then a else AfterFailure(Failures(a, key, n - 1, t), key, t, t)
  }

  /** From no record, `n` failures give a count of `n`; from the third on the
      pair is banned for the length the count calls for, and the ban is
      never lifted by further failures. */
  lemma {:induction false} FailuresFromScratch(key: AttemptKey, n: nat, t: int)
    ensures Failures(NoAttempt, key, n, t).attempts == n
    ensures n >= 3 ==> Failures(NoAttempt, key, n, t).bannedUntil == Some(t + BanMinutes(n).value)
    ensures n < 3 ==> Failures(NoAttempt, key, n, t).bannedUntil == None
  {
    if n > 0 {
      FailuresFromScratch(key, n - 1, t);
    }
  }

  /** The third failure in a row bans the pair at once: a fourth attempt
      within five minutes is blocked. */
  lemma ThirdFailureBans(key: AttemptKey, t: int, later: int)
    requires t <= later < t + 5
    ensures Banned(Failures(NoAttempt, key, 3, t), later)
  {
    FailuresFromScratch(key, 3, t);
  }
}
