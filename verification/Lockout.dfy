/** The account lockout (services/lockout_service.rs) over whole runs. */
module Lockout {
  import opened Prelude
  import opened Uuids
  import opened Crypto
  import opened Jwt
  import opened RateLimit
  import opened Schema
  import opened Handlers
  import opened Runs

  // ── What one event does to the attempts ────────────────────────────────────

  /** The tenant in which a login request tries a password, if it gets that far. */
  ghost function TriedIn(db: Db, cfg: Config, r: Request): Option<Ctx> {
    match r
    case Login(ctx, _, _, _) => Some(ctx)
    case LoginUniversal(email, _, _) =>
      var where := Resolve(db.users, cfg.wrapKey, db.tenants, email);
      if where.Within? then Some(where.ctx) else None
    case _ => None
  }

  /** The verdict of event `i`, if it tries a password for this account name. */
  ghost function VerdictAt(run: Run, i: nat, t: Uuid, l: Lookup): Option<LoginVerdict>
    requires run.Shaped() && i < |run.events|
  {
    var db, now, r := run.states[i], run.events[i].now, run.events[i].request;
    var ctx := TriedIn(db, run.cfg, r);
    if ctx.None? || ctx.value.tenant != t || Lookup(r.email, ctx.value.key) != l then None
    else Some(JudgeLogin(db, now, ctx.value, r.email, r.plain))
  }

  ghost predicate FailsAt(run: Run, i: nat, t: Uuid, l: Lookup)
    requires run.Shaped() && i < |run.events|
  {
    VerdictAt(run, i, t, l) == Some(Mismatch)
  }

  ghost predicate ClearsAt(run: Run, i: nat, t: Uuid, l: Lookup)
    requires run.Shaped() && i < |run.events|
  {
    VerdictAt(run, i, t, l).Some? && VerdictAt(run, i, t, l).value.Verified?
  }

  lemma LoginsMoveAttempts(run: Run, i: nat)
    requires run.Valid() && i < |run.events| && !run.events[i].request.Cleanup?
    ensures var db, now, r := run.states[i], run.events[i].now, run.events[i].request;
            var ctx := TriedIn(db, run.cfg, r);
            run.states[i + 1].attempts
            == if ctx.None? then db.attempts
               else AttemptsAfter(db.attempts, ctx.value.tenant, Lookup(r.email, ctx.value.key), now,
                                  JudgeLogin(db, now, ctx.value, r.email, r.plain))
  {
    match run.events[i].request
    case Login(_, _, _, _) => LoginAt(run, i);
    case LoginUniversal(_, _, _) => LoginUniversalAt(run, i);
    case _ => Obeys(run, i);
  }

  // ── Counting ───────────────────────────────────────────────────────────────

  lemma {:induction false} CountAfterClear(attempts: seq<Attempt>, t: Uuid, l: Lookup, gone: Uuid, goneL: Lookup,
                                           since: Time)
    ensures CountSince(Cleared(attempts, gone, goneL), t, l, since)
            == if t == gone && l == goneL then 0 else CountSince(attempts, t, l, since)
  {
    if attempts != [] {
      var init, last := attempts[..|attempts| - 1], attempts[|attempts| - 1];
      CountAfterClear(init, t, l, gone, goneL, since);
      CountAfterRecord(Cleared(init, gone, goneL), last, t, l, since);
      assert Cleared(init, gone, goneL) + [] == Cleared(init, gone, goneL);
    }
  }

  lemma {:induction false} CountAfterCleanup(attempts: seq<Attempt>, t: Uuid, l: Lookup, cutoff: Time, since: Time)
    ensures CountSince(KeptSince(attempts, cutoff), t, l, since)
            == CountSince(attempts, t, l, if since >= cutoff then since else cutoff)
  {
    if attempts != [] {
      var init, last := attempts[..|attempts| - 1], attempts[|attempts| - 1];
      CountAfterCleanup(init, t, l, cutoff, since);
      var kept := KeptSince(init, cutoff);
      assert KeptSince(attempts, cutoff) == if last.at >= cutoff then kept + [last] else kept;
      assert (kept + [last])[..|kept|] == kept;
    }
  }

  lemma {:induction false} CountShrinks(attempts: seq<Attempt>, t: Uuid, l: Lookup, earlier: Time, later: Time)
    requires earlier <= later
    ensures CountSince(attempts, t, l, later) <= CountSince(attempts, t, l, earlier)
  {
    if attempts != [] {
      CountShrinks(attempts[..|attempts| - 1], t, l, earlier, later);
    }
  }

  lemma CountAfterRecord(attempts: seq<Attempt>, a: Attempt, t: Uuid, l: Lookup, since: Time)
    ensures CountSince(attempts + [a], t, l, since)
            == CountSince(attempts, t, l, since) + if Mine(a, t, l) && a.at >= since then 1 else 0
  {
    assert (attempts + [a])[..|attempts|] == attempts;
  }

  lemma CountAfterLogin(attempts: seq<Attempt>, tried: Uuid, name: Lookup, now: Time, v: LoginVerdict,
                        t: Uuid, l: Lookup, since: Time)
    ensures var before, after := CountSince(attempts, t, l, since),
                                 CountSince(AttemptsAfter(attempts, tried, name, now, v), t, l, since);
            after == if tried != t || name != l || v.Declined? then before
                     else if v.Verified? then 0
                     else before + if now >= since then 1 else 0
  {
    CountAfterRecord(attempts, Attempt(tried, name, now), t, l, since);
    CountAfterClear(attempts, t, l, tried, name, since);
  }

  /** The effect of one event on the count of one account name. */
  lemma CountMoves(run: Run, i: nat, t: Uuid, l: Lookup, since: Time)
    requires run.Valid() && i < |run.events|
    ensures var before, after := CountSince(run.states[i].attempts, t, l, since),
                                 CountSince(run.states[i + 1].attempts, t, l, since);
            if FailsAt(run, i, t, l) then after == before + if run.events[i].now >= since then 1 else 0
            else if ClearsAt(run, i, t, l) then after == 0
            else after <= before
                 && (!run.events[i].request.Cleanup? || since >= run.events[i].now - ATTEMPT_RETENTION
                     ==> after == before)
  {
    var db, now, r := run.states[i], run.events[i].now, run.events[i].request;
    if r.Cleanup? {
      CleanupAt(run, i);
      CountAfterCleanup(db.attempts, t, l, now - ATTEMPT_RETENTION, since);
      if since < now - ATTEMPT_RETENTION {
        CountShrinks(db.attempts, t, l, since, now - ATTEMPT_RETENTION);
      }
    } else {
      LoginsMoveAttempts(run, i);
      var ctx := TriedIn(db, run.cfg, r);
      if ctx.Some? {
        CountAfterLogin(db.attempts, ctx.value.tenant, Lookup(r.email, ctx.value.key), now,
                        JudgeLogin(db, now, ctx.value, r.email, r.plain), t, l, since);
      }
    }
  }

  // ── The sliding-window bound ───────────────────────────────────────────────

  /** Failures recorded for an account name by events a, ..., i - 1 with a clock reading in [from, to]. */
  ghost function Failures(run: Run, a: nat, i: nat, t: Uuid, l: Lookup, from: Time, to: Time): nat
    requires run.Shaped() && i <= |run.events|
    decreases i
  {
    if i <= a then 0
    else Failures(run, a, i - 1, t, l, from, to)
         + if FailsAt(run, i - 1, t, l) && from <= run.events[i - 1].now <= to then 1 else 0
  }

  ghost predicate FreeOfClears(run: Run, a: nat, i: nat, t: Uuid, l: Lookup)
    requires run.Shaped() && i <= |run.events|
  {
    forall m :: a <= m < i ==> !ClearsAt(run, m, t, l)
  }

  lemma {:induction false} SettingsStand(run: Run, i: nat)
    requires run.Valid() && i <= |run.events|
    ensures run.states[i].settings == run.states[0].settings
  {
    if i > 0 {
      SettingsStand(run, i - 1);
      Obeys(run, i - 1);
    }
  }

  lemma FailureStaysOnFile(run: Run, a: nat, i: nat, next: nat, t: Uuid, l: Lookup, from: Time, to: Time)
    requires run.Valid() && a <= i < |run.events| && next == i + 1 && FreeOfClears(run, a, next, t, l)
    requires run.events[i].request.Cleanup? ==> run.events[i].now - ATTEMPT_RETENTION <= from
    requires Failures(run, a, i, t, l, from, to) <= CountSince(run.states[i].attempts, t, l, from)
    ensures Failures(run, a, next, t, l, from, to) <= CountSince(run.states[next].attempts, t, l, from)
  {
    CountMoves(run, i, t, l, from);
    assert !ClearsAt(run, i, t, l);
  }

  /** Whatever cleanup ran, the table still holds the failures it needs for the current window. */
  lemma {:induction false} FailuresAreOnFile(run: Run, a: nat, i: nat, t: Uuid, l: Lookup, from: Time, to: Time)
    requires run.Valid() && a <= i <= |run.events| && FreeOfClears(run, a, i, t, l)
    requires forall m :: a <= m < i && run.events[m].request.Cleanup? ==> run.events[m].now - ATTEMPT_RETENTION <= from
    ensures Failures(run, a, i, t, l, from, to) <= CountSince(run.states[i].attempts, t, l, from)
  {
    if a < i {
      FailuresAreOnFile(run, a, i - 1, t, l, from, to);
      FailureStaysOnFile(run, a, i - 1, i, t, l, from, to);
    }
  }

  /** A failure is recorded only while fewer than `maxAttempts` are within the window before it. */
  lemma RoomForOneMore(run: Run, a: nat, i: nat, t: Uuid, l: Lookup, from: Time, to: Time)
    requires run.Valid() && run.Monotone() && a <= i < |run.events| && FreeOfClears(run, a, i, t, l)
    requires SettingsOf(run.states[0].settings, t).windowMinutes <= 60
             || AsUsize(SettingsOf(run.states[0].settings, t).maxAttempts) == 0
    requires to == from + SettingsOf(run.states[0].settings, t).windowMinutes * MINUTE
    requires FailsAt(run, i, t, l) && from <= run.events[i].now <= to
    ensures Failures(run, a, i, t, l, from, to) < AsUsize(SettingsOf(run.states[0].settings, t).maxAttempts)
  {
    var now := run.events[i].now;
    SettingsStand(run, i);
    assert !Locked(run.states[i].settings, run.states[i].attempts, t, l, now);
    FailuresAreOnFile(run, a, i, t, l, from, to);
    CountShrinks(run.states[i].attempts, t, l, now - (to - from), from);
  }

  /** The failures of one (tenant, address) in the closed interval of a lockout window from `from` are at most
      `maxAttempts`. */
  ghost predicate BoundAt(run: Run, a: nat, i: nat, t: Uuid, l: Lookup, from: Time)
    requires run.Shaped() && i <= |run.events|
  {
    var s := SettingsOf(run.states[0].settings, t);
    Failures(run, a, i, t, l, from, from + s.windowMinutes * MINUTE) <= AsUsize(s.maxAttempts)
  }

  /** The bound: with a lockout window of at most 60 minutes, or with no attempt allowed at all, it holds in
      every stretch of a run that is free of clears, from every instant. */
  lemma {:induction false} FailuresAreBounded(run: Run, a: nat, i: nat, t: Uuid, l: Lookup, from: Time)
    requires run.Valid() && run.Monotone() && a <= i <= |run.events| && FreeOfClears(run, a, i, t, l)
    requires SettingsOf(run.states[0].settings, t).windowMinutes <= 60
             || AsUsize(SettingsOf(run.states[0].settings, t).maxAttempts) == 0
    requires SettingsOf(run.states[0].settings, t).maxAttempts > -0x1_0000_0000
    ensures BoundAt(run, a, i, t, l, from)
  {
    if a < i {
      FailuresAreBounded(run, a, i - 1, t, l, from);
      var to := from + SettingsOf(run.states[0].settings, t).windowMinutes * MINUTE;
      if FailsAt(run, i - 1, t, l) && from <= run.events[i - 1].now <= to {
        RoomForOneMore(run, a, i - 1, t, l, from, to);
      }
    }
  }

  // ── A lock ends by itself ──────────────────────────────────────────────────

  /** A login on a locked name is refused and changes nothing at all. */
  lemma LockedLoginIsInert(db: Db, cfg: Config, now: Time, ctx: Ctx, email: string, plain: string, mint: Issuance)
    requires Locked(db.settings, db.attempts, ctx.tenant, Lookup(email, ctx.key), now)
    ensures LoginSpec(db, cfg, now, ctx, email, plain, mint) == Refuse(db, Unauthorized)
  {
    assert JudgeLogin(db, now, ctx, email, plain) == Declined(Unauthorized);
  }

  /** Event `i` tries this account name, and it is not locked at that moment. */
  ghost predicate TriesUnlocked(run: Run, i: nat, t: Uuid, l: Lookup)
    requires run.Shaped() && i < |run.events|
  {
    var ctx := TriedIn(run.states[i], run.cfg, run.events[i].request);
    ctx.Some? && ctx.value.tenant == t && Lookup(run.events[i].request.email, ctx.value.key) == l
    && !Locked(run.states[i].settings, run.states[i].attempts, t, l, run.events[i].now)
  }

  /** Requests made while locked never extend the lock: whatever is tried meanwhile, the name is
      unlocked at any time by which fewer than `maxAttempts` of the old failures are in the window. */
  lemma {:induction false} LockEndsByItself(run: Run, i: nat, k: nat, t: Uuid, l: Lookup, now: Time)
    requires run.Valid() && i <= k <= |run.events|
    requires forall m {:trigger TriesUnlocked(run, m, t, l)} :: i <= m < k ==> !TriesUnlocked(run, m, t, l)
    requires !Locked(run.states[i].settings, run.states[i].attempts, t, l, now)
    ensures !Locked(run.states[k].settings, run.states[k].attempts, t, l, now)
  {
    if i < k {
      LockEndsByItself(run, i, k - 1, t, l, now);
      Obeys(run, k - 1);
      var s := SettingsOf(run.states[k].settings, t);
      CountMoves(run, k - 1, t, l, now - s.windowMinutes * MINUTE);
      assert !TriesUnlocked(run, k - 1, t, l);
    }
  }

  // ── When a lock is released ────────────────────────────────────────────────

  /** `at` is the time of the `n`-th latest of the attempts under this account name. */
  ghost predicate NthLatest(attempts: seq<Attempt>, t: Uuid, l: Lookup, n: nat, at: Time) {
    CountSince(attempts, t, l, at) >= n > CountSince(attempts, t, l, at + 1)
  }

  lemma {:induction false} CountedAt(attempts: seq<Attempt>, t: Uuid, l: Lookup, at: Time) returns (k: nat)
    requires CountSince(attempts, t, l, at) > CountSince(attempts, t, l, at + 1)
    ensures k < |attempts| && Mine(attempts[k], t, l) && attempts[k].at == at
  {
    var init, last := attempts[..|attempts| - 1], attempts[|attempts| - 1];
    if Mine(last, t, l) && last.at == at {
      k := |attempts| - 1;
    } else {
      k := CountedAt(init, t, l, at);
    }
  }

  /** There is a moment at which all attempts on file are out of the window. */
  lemma {:induction false} QuietMoment(attempts: seq<Attempt>, t: Uuid, l: Lookup) returns (since: Time)
    ensures CountSince(attempts, t, l, since) == 0
  {
    if attempts == [] {
      since := 0;
    } else {
      var earlier := QuietMoment(attempts[..|attempts| - 1], t, l);
      var last := attempts[|attempts| - 1].at + 1;
      since := if earlier >= last then earlier else last;
      CountShrinks(attempts[..|attempts| - 1], t, l, earlier, since);
    }
  }

  lemma {:induction false} NthLatestBetween(attempts: seq<Attempt>, t: Uuid, l: Lookup, n: nat, since: Time,
                                            quiet: Time)
    returns (at: Time)
    requires CountSince(attempts, t, l, since) >= n > CountSince(attempts, t, l, quiet) && since < quiet
    ensures since <= at && NthLatest(attempts, t, l, n, at)
    decreases quiet - since
  {
    if CountSince(attempts, t, l, since + 1) < n {
      at := since;
    } else {
      at := NthLatestBetween(attempts, t, l, n, since + 1, quiet);
    }
  }

  /** Where at least `n` attempts are counted there is an `n`-th latest, and it is one of them. */
  lemma NthLatestExists(attempts: seq<Attempt>, t: Uuid, l: Lookup, n: nat, since: Time) returns (at: Time, k: nat)
    requires CountSince(attempts, t, l, since) >= n >= 1
    ensures since <= at && NthLatest(attempts, t, l, n, at)
    ensures k < |attempts| && Mine(attempts[k], t, l) && attempts[k].at == at
  {
    var quiet := QuietMoment(attempts, t, l);
    if quiet <= since {
      CountShrinks(attempts, t, l, quiet, since);
    }
    at := NthLatestBetween(attempts, t, l, n, since, quiet);
    k := CountedAt(attempts, t, l, at);
  }

  /** With the attempts on file now, the name is locked up to the window after the `maxAttempts`-th latest of
      them, that instant included, and at no time after it. */
  lemma LockedUntil(settings: map<Uuid, Settings>, attempts: seq<Attempt>, t: Uuid, l: Lookup, at: Time, now: Time)
    requires var s := SettingsOf(settings, t);
             AsUsize(s.maxAttempts) >= 0 && NthLatest(attempts, t, l, AsUsize(s.maxAttempts), at)
    ensures Locked(settings, attempts, t, l, now) <==> now <= at + SettingsOf(settings, t).windowMinutes * MINUTE
  {
    var since := now - SettingsOf(settings, t).windowMinutes * MINUTE;
    if since <= at {
      CountShrinks(attempts, t, l, since, at);
    } else {
      CountShrinks(attempts, t, l, at + 1, since);
    }
  }

  /** What the settings say: locked are as many attempts as allowed, or more, within the window, and without settings
      five within fifteen minutes. A negative number allowed is read as an unsigned one. */
  lemma LockedExactly(settings: map<Uuid, Settings>, attempts: seq<Attempt>, t: Uuid, l: Lookup, now: Time)
    ensures t !in settings ==> (Locked(settings, attempts, t, l, now) <==> CountSince(attempts, t, l, now - 900) >= 5)
    ensures t in settings ==>
              var allowed := settings[t].maxAttempts;
              (Locked(settings, attempts, t, l, now)
               <==> CountSince(attempts, t, l, now - 60 * settings[t].windowMinutes)
                    >= if allowed >= 0 then allowed else 18446744073709551616 + allowed)
  {}

  /** Up to the release, and while no cleanup comes more than an hour after the decisive attempt. */
  ghost predicate BeforeRelease(run: Run, i: nat, k: nat, t: Uuid, at: Time)
    requires run.Shaped() && i <= k <= |run.events|
  {
    var release := at + SettingsOf(run.states[0].settings, t).windowMinutes * MINUTE;
    forall m :: i <= m < k ==>
      run.events[m].now <= release && (run.events[m].request.Cleanup? ==> run.events[m].now <= at + ATTEMPT_RETENTION)
  }

  lemma LockedCountStands(run: Run, i: nat, t: Uuid, l: Lookup, since: Time)
    requires run.Valid() && i < |run.events|
    requires Locked(run.states[i].settings, run.states[i].attempts, t, l, run.events[i].now)
    requires run.events[i].request.Cleanup? ==> run.events[i].now <= since + ATTEMPT_RETENTION
    ensures CountSince(run.states[i + 1].attempts, t, l, since) == CountSince(run.states[i].attempts, t, l, since)
  {
    CountMoves(run, i, t, l, since);
  }

  lemma {:induction false} NthLatestStands(run: Run, i: nat, k: nat, t: Uuid, l: Lookup, at: Time)
    requires run.Valid() && i <= k <= |run.events| && BeforeRelease(run, i, k, t, at)
    requires var n := AsUsize(SettingsOf(run.states[0].settings, t).maxAttempts);
             n >= 0 && NthLatest(run.states[i].attempts, t, l, n, at)
    ensures NthLatest(run.states[k].attempts, t, l, AsUsize(SettingsOf(run.states[0].settings, t).maxAttempts), at)
  {
    if i < k {
      NthLatestStands(run, i, k - 1, t, l, at);
      SettingsStand(run, k - 1);
      LockedUntil(run.states[k - 1].settings, run.states[k - 1].attempts, t, l, at, run.events[k - 1].now);
      LockedCountStands(run, k - 1, t, l, at);
      LockedCountStands(run, k - 1, t, l, at + 1);
    }
  }

  /** The release instant: from a state in which `at` is the time of the `maxAttempts`-th latest attempt, and
      whatever is requested up to the release, the name is locked if and only if the window after `at` has not
      passed. */
  lemma LockReleasesExactly(run: Run, i: nat, k: nat, t: Uuid, l: Lookup, at: Time, now: Time)
    requires run.Valid() && i <= k <= |run.events| && BeforeRelease(run, i, k, t, at)
    requires var n := AsUsize(SettingsOf(run.states[0].settings, t).maxAttempts);
             n >= 0 && NthLatest(run.states[i].attempts, t, l, n, at)
    ensures Locked(run.states[k].settings, run.states[k].attempts, t, l, now)
            <==> now <= at + SettingsOf(run.states[0].settings, t).windowMinutes * MINUTE
  {
    NthLatestStands(run, i, k, t, l, at);
    SettingsStand(run, k);
    LockedUntil(run.states[k].settings, run.states[k].attempts, t, l, at, now);
  }

  lemma FewAreKept(attempts: seq<Attempt>, t: Uuid, l: Lookup, n: nat, at: Time, cutoff: Time, since: Time)
    requires NthLatest(attempts, t, l, n, at) && cutoff > at
    ensures CountSince(KeptSince(attempts, cutoff), t, l, since) < n
  {
    CountAfterCleanup(attempts, t, l, cutoff, since);
    CountShrinks(attempts, t, l, at + 1, if since >= cutoff then since else cutoff);
  }

  /** A cleanup more than an hour after `at` releases the name at once, however long the window is. */
  lemma CleanupReleases(run: Run, i: nat, t: Uuid, l: Lookup, at: Time, now: Time)
    requires run.Valid() && i < |run.events| && run.events[i].request.Cleanup?
    requires run.events[i].now > at + ATTEMPT_RETENTION
    requires var n := AsUsize(SettingsOf(run.states[0].settings, t).maxAttempts);
             n >= 0 && NthLatest(run.states[i].attempts, t, l, n, at)
    ensures !Locked(run.states[i + 1].settings, run.states[i + 1].attempts, t, l, now)
  {
    CleanupAt(run, i);
    SettingsStand(run, i);
    FewAreKept(run.states[i].attempts, t, l, AsUsize(SettingsOf(run.states[0].settings, t).maxAttempts), at,
               run.events[i].now - ATTEMPT_RETENTION,
               now - SettingsOf(run.states[0].settings, t).windowMinutes * MINUTE);
  }

  // ── Beyond an hour the bound fails ─────────────────────────────────────────

  /** This password is wrong for this address, or nobody has the address, and the check gets that far. */
  ghost predicate WrongPassword(db: Db, ctx: Ctx, email: string, plain: string) {
    match FindByLookup(db.users, ctx.tenant, Lookup(email, ctx.key))
    case None => true
    case Some(id) =>
      var user := db.users[id];
      user.active && (SettingsOf(db.settings, ctx.tenant).requireVerified ==> user.verified)
      && !VerifyPassword(plain, user.password)
  }

  /** `n` logins at `start`, a cleanup a second past the hour, one more login. */
  function Spread(login: Request, n: nat, start: Time): seq<Event> {
    seq(n, _ => Event(start, login)) + [Event(start + 3601, Cleanup), Event(start + 3601, login)]
  }

  /** The run in question, from a moment at which no attempt is in the window. */
  ghost predicate IsSpread(run: Run, ctx: Ctx, email: string, plain: string, mint: Issuance, start: Time)
    requires run.Shaped()
  {
    var db, t, l := run.states[0], ctx.tenant, Lookup(email, ctx.key);
    var s := SettingsOf(db.settings, t);
    && s.windowMinutes > 60 && AsUsize(s.maxAttempts) >= 1
    && run.events == Spread(Login(ctx, email, plain, mint), AsUsize(s.maxAttempts), start)
    && WrongPassword(db, ctx, email, plain)
    && CountSince(db.attempts, t, l, start - s.windowMinutes * MINUTE) == 0
  }

  lemma WrongPasswordFails(run: Run, i: nat, ctx: Ctx, email: string, plain: string, mint: Issuance)
    requires run.Valid() && i < |run.events| && run.events[i].request == Login(ctx, email, plain, mint)
    requires WrongPassword(run.states[i], ctx, email, plain)
    requires !Locked(run.states[i].settings, run.states[i].attempts, ctx.tenant, Lookup(email, ctx.key),
                     run.events[i].now)
    ensures FailsAt(run, i, ctx.tenant, Lookup(email, ctx.key)) && !ClearsAt(run, i, ctx.tenant, Lookup(email, ctx.key))
    ensures run.states[i + 1].users == run.states[i].users && run.states[i + 1].settings == run.states[i].settings
  {
    LoginAt(run, i);
    assert JudgeLogin(run.states[i], run.events[i].now, ctx, email, plain) == Mismatch;
  }

  /** After `i` of the logins: `i` attempts in the window, none of them later than `start`. */
  ghost predicate Tried(run: Run, i: nat, ctx: Ctx, email: string, start: Time)
    requires run.Shaped() && i <= |run.events|
  {
    var t, l := ctx.tenant, Lookup(email, ctx.key);
    var window := SettingsOf(run.states[0].settings, t).windowMinutes * MINUTE;
    && run.states[i].users == run.states[0].users && run.states[i].settings == run.states[0].settings
    && CountSince(run.states[i].attempts, t, l, start - window) == i
    && CountSince(run.states[i].attempts, t, l, start + 1) == 0
    && Failures(run, 0, i, t, l, start, start + window) == i && FreeOfClears(run, 0, i, t, l)
  }

  lemma TryFails(run: Run, i: nat, ctx: Ctx, email: string, plain: string, mint: Issuance, start: Time)
    requires run.Valid() && IsSpread(run, ctx, email, plain, mint, start)
    requires i < AsUsize(SettingsOf(run.states[0].settings, ctx.tenant).maxAttempts) && Tried(run, i, ctx, email, start)
    ensures var t, l := ctx.tenant, Lookup(email, ctx.key);
            && run.events[i].now == start && FailsAt(run, i, t, l) && !ClearsAt(run, i, t, l)
            && run.states[i + 1].users == run.states[i].users && run.states[i + 1].settings == run.states[i].settings
  {
    assert run.events[i] == Event(start, Login(ctx, email, plain, mint));
    WrongPasswordFails(run, i, ctx, email, plain, mint);
  }

  lemma TryCounts(run: Run, i: nat, ctx: Ctx, email: string, plain: string, mint: Issuance, start: Time)
    requires run.Valid() && IsSpread(run, ctx, email, plain, mint, start)
    requires i < AsUsize(SettingsOf(run.states[0].settings, ctx.tenant).maxAttempts) && Tried(run, i, ctx, email, start)
    ensures var t, l := ctx.tenant, Lookup(email, ctx.key);
            var since := start - SettingsOf(run.states[0].settings, t).windowMinutes * MINUTE;
            && run.events[i].now == start && FailsAt(run, i, t, l) && !ClearsAt(run, i, t, l)
            && run.states[i + 1].users == run.states[i].users && run.states[i + 1].settings == run.states[i].settings
            && CountSince(run.states[i + 1].attempts, t, l, since) == i + 1
            && CountSince(run.states[i + 1].attempts, t, l, start + 1) == 0
  {
    var t, l := ctx.tenant, Lookup(email, ctx.key);
    TryFails(run, i, ctx, email, plain, mint, start);
    CountMoves(run, i, t, l, start - SettingsOf(run.states[0].settings, t).windowMinutes * MINUTE);
    CountMoves(run, i, t, l, start + 1);
  }

  lemma TriedAgain(run: Run, i: nat, ctx: Ctx, email: string, plain: string, mint: Issuance, start: Time)
    requires run.Valid() && IsSpread(run, ctx, email, plain, mint, start)
    requires i < AsUsize(SettingsOf(run.states[0].settings, ctx.tenant).maxAttempts) && Tried(run, i, ctx, email, start)
    ensures Tried(run, i + 1, ctx, email, start)
  {
    TryCounts(run, i, ctx, email, plain, mint, start);
    FreeOfOneMore(run, i, ctx.tenant, Lookup(email, ctx.key));
  }

  lemma FreeOfOneMore(run: Run, i: nat, t: Uuid, l: Lookup)
    requires run.Shaped() && i < |run.events| && FreeOfClears(run, 0, i, t, l) && !ClearsAt(run, i, t, l)
    ensures FreeOfClears(run, 0, i + 1, t, l)
  {}

  lemma {:induction false} SpreadTries(run: Run, i: nat, ctx: Ctx, email: string, plain: string, mint: Issuance,
                                       start: Time)
    requires run.Valid() && IsSpread(run, ctx, email, plain, mint, start)
    requires i <= AsUsize(SettingsOf(run.states[0].settings, ctx.tenant).maxAttempts)
    ensures Tried(run, i, ctx, email, start)
  {
    if i == 0 {
      CountShrinks(run.states[0].attempts, ctx.tenant, Lookup(email, ctx.key),
                   start - SettingsOf(run.states[0].settings, ctx.tenant).windowMinutes * MINUTE, start + 1);
    } else {
      SpreadTries(run, i - 1, ctx, email, plain, mint, start);
      TriedAgain(run, i - 1, ctx, email, plain, mint, start);
    }
  }

  /** The cleanup forgets all of them. */
  lemma SpreadForgets(run: Run, ctx: Ctx, email: string, plain: string, mint: Issuance, start: Time)
    requires run.Valid() && IsSpread(run, ctx, email, plain, mint, start)
    ensures var n := AsUsize(SettingsOf(run.states[0].settings, ctx.tenant).maxAttempts);
            var t, l := ctx.tenant, Lookup(email, ctx.key);
            var window := SettingsOf(run.states[0].settings, t).windowMinutes * MINUTE;
            && Tried(run, n, ctx, email, start) && VerdictAt(run, n, t, l) == None
            && run.states[n + 1].users == run.states[0].users && run.states[n + 1].settings == run.states[0].settings
            && CountSince(run.states[n + 1].attempts, t, l, start + 3601 - window) == 0
  {
    var t, l := ctx.tenant, Lookup(email, ctx.key);
    var s := SettingsOf(run.states[0].settings, t);
    var n := AsUsize(s.maxAttempts);
    SpreadTries(run, n, ctx, email, plain, mint, start);
    assert run.events[n] == Event(start + 3601, Cleanup);
    CleanupAt(run, n);
    CountAfterCleanup(run.states[n].attempts, t, l, start + 1, start + 3601 - s.windowMinutes * MINUTE);
  }

  lemma SpreadEnds(run: Run, ctx: Ctx, email: string, plain: string, mint: Issuance, start: Time, last: nat)
    requires run.Shaped() && IsSpread(run, ctx, email, plain, mint, start)
    requires last == AsUsize(SettingsOf(run.states[0].settings, ctx.tenant).maxAttempts) + 1
    ensures last < |run.events| && run.events[last] == Event(start + 3601, Login(ctx, email, plain, mint))
  {}

  /** So the login after it fails as the first did, ... */
  lemma LastTryFails(run: Run, ctx: Ctx, email: string, plain: string, mint: Issuance, start: Time)
    requires run.Valid() && IsSpread(run, ctx, email, plain, mint, start)
    ensures var n := AsUsize(SettingsOf(run.states[0].settings, ctx.tenant).maxAttempts);
            run.events[n + 1].now == start + 3601
            && FailsAt(run, n + 1, ctx.tenant, Lookup(email, ctx.key))
            && !ClearsAt(run, n + 1, ctx.tenant, Lookup(email, ctx.key))
  {
    var last := AsUsize(SettingsOf(run.states[0].settings, ctx.tenant).maxAttempts) + 1;
    SpreadForgets(run, ctx, email, plain, mint, start);
    SpreadEnds(run, ctx, email, plain, mint, start, last);
    WrongPasswordFails(run, last, ctx, email, plain, mint);
  }

  lemma OneFailureMore(run: Run, i: nat, t: Uuid, l: Lookup, from: Time, to: Time)
    requires run.Shaped() && i + 1 < |run.events| && !FailsAt(run, i, t, l) && FailsAt(run, i + 1, t, l)
    requires from <= run.events[i + 1].now <= to
    ensures Failures(run, 0, i + 2, t, l, from, to) == Failures(run, 0, i, t, l, from, to) + 1
  {
    assert Failures(run, 0, i + 1, t, l, from, to) == Failures(run, 0, i, t, l, from, to);
  }

  lemma OneTooMany(run: Run, n: nat, t: Uuid, l: Lookup, start: Time)
    requires run.Shaped() && |run.events| == n + 2 && FreeOfClears(run, 0, n, t, l)
    requires !FailsAt(run, n, t, l) && !ClearsAt(run, n, t, l)
    requires FailsAt(run, n + 1, t, l) && !ClearsAt(run, n + 1, t, l)
    requires var s := SettingsOf(run.states[0].settings, t);
             var to := start + s.windowMinutes * MINUTE;
             n == AsUsize(s.maxAttempts) && Failures(run, 0, n, t, l, start, to) == n
             && start <= run.events[n + 1].now <= to
    ensures FreeOfClears(run, 0, |run.events|, t, l) && !BoundAt(run, 0, |run.events|, t, l, start)
  {
    FreeOfOneMore(run, n, t, l);
    FreeOfOneMore(run, n + 1, t, l);
    var to := start + SettingsOf(run.states[0].settings, t).windowMinutes * MINUTE;
    OneFailureMore(run, n, t, l, start, to);
    assert Failures(run, 0, |run.events|, t, l, start, to) == n + 1;
  }

  /** ... and is counted on top of all the others. */
  lemma SpreadExceeds(run: Run, ctx: Ctx, email: string, plain: string, mint: Issuance, start: Time)
    requires run.Valid() && IsSpread(run, ctx, email, plain, mint, start)
    ensures FreeOfClears(run, 0, |run.events|, ctx.tenant, Lookup(email, ctx.key))
    ensures !BoundAt(run, 0, |run.events|, ctx.tenant, Lookup(email, ctx.key), start)
  {
    SpreadForgets(run, ctx, email, plain, mint, start);
    LastTryFails(run, ctx, email, plain, mint, start);
    OneTooMany(run, AsUsize(SettingsOf(run.states[0].settings, ctx.tenant).maxAttempts), ctx.tenant,
               Lookup(email, ctx.key), start);
  }

  /** In every run from `db` the bound holds of this account name. */
  ghost predicate Bounded(cfg: Config, db: Db, t: Uuid, l: Lookup) {
    forall run: Run, a: nat, i: nat, from: Time ::
      (run.Valid() && run.Monotone() && run.cfg == cfg && run.states[0] == db && a <= i <= |run.events|
       && FreeOfClears(run, a, i, t, l)) ==> BoundAt(run, a, i, t, l, from)
  }

  lemma Exceeded(cfg: Config, db: Db, ctx: Ctx, email: string, plain: string, mint: Issuance)
    returns (run: Run, start: Time)
    requires WrongPassword(db, ctx, email, plain)
    requires var s := SettingsOf(db.settings, ctx.tenant); s.windowMinutes > 60 && AsUsize(s.maxAttempts) >= 1
    ensures run.Valid() && run.cfg == cfg && run.states[0] == db && IsSpread(run, ctx, email, plain, mint, start)
  {
    var s := SettingsOf(db.settings, ctx.tenant);
    var since := QuietMoment(db.attempts, ctx.tenant, Lookup(email, ctx.key));
    start := since + s.windowMinutes * MINUTE;
    run := RunOf(cfg, db, Spread(Login(ctx, email, plain, mint), AsUsize(s.maxAttempts), start));
  }

  /** The exact condition, for every tenant in service, every address and every password that is wrong for
      it: the bound holds in all runs if and only if the lockout window is at most 60 minutes or no attempt
      is allowed at all. Beyond an hour the cleanup forgets failures that the window still needs. */
  lemma BoundHoldsExactly(cfg: Config, db: Db, ctx: Ctx, email: string, plain: string, mint: Issuance)
    requires TenantKey(db.tenants, cfg.wrapKey, ctx.tenant) == Ok(ctx.key) && WrongPassword(db, ctx, email, plain)
    requires SettingsOf(db.settings, ctx.tenant).maxAttempts > -0x1_0000_0000
    ensures var s := SettingsOf(db.settings, ctx.tenant);
            Bounded(cfg, db, ctx.tenant, Lookup(email, ctx.key))
            <==> s.windowMinutes <= 60 || AsUsize(s.maxAttempts) == 0
  {
    var s, t, l := SettingsOf(db.settings, ctx.tenant), ctx.tenant, Lookup(email, ctx.key);
    if s.windowMinutes <= 60 || AsUsize(s.maxAttempts) == 0 {
      forall run: Run, a: nat, i: nat, from: Time |
        run.Valid() && run.Monotone() && run.cfg == cfg && run.states[0] == db && a <= i <= |run.events|
        && FreeOfClears(run, a, i, t, l)
        ensures BoundAt(run, a, i, t, l, from)
      {
        FailuresAreBounded(run, a, i, t, l, from);
      }
    } else {
      var run, start := Exceeded(cfg, db, ctx, email, plain, mint);
      SpreadExceeds(run, ctx, email, plain, mint, start);
      assert run.Monotone();
    }
  }
}
