/** Runs built event by event, and the step of a run unfolded one request kind at a time. */
module Runs {
  import opened Prelude
  import opened Crypto
  import opened Schema
  import opened Handlers

  /** The run in which nothing has happened yet. */
  ghost function Start(cfg: Config, db: Db): (run: Run)
    ensures run.Valid() && run.cfg == cfg && run.events == [] && run.states == [db]
  {
    Run(cfg, [], [db], [])
  }

  /** One event more. */
  ghost function Then(run: Run, e: Event): (longer: Run)
    requires run.Valid()
    ensures longer.Shaped() && longer.cfg == run.cfg && longer.events == run.events + [e]
    ensures run.states <= longer.states && run.replies <= longer.replies
    ensures Outcome(longer.states[|run.events| + 1], longer.replies[|run.events|])
            == Step(run.states[|run.events|], run.cfg, e)
  {
    var o := Step(run.states[|run.events|], run.cfg, e);
    Run(run.cfg, run.events + [e], run.states + [o.db], run.replies + [o.reply])
  }

  lemma ThenSteps(run: Run, e: Event, i: nat)
    requires run.Valid() && i <= |run.events|
    ensures Then(run, e).Stepped(i)
  {
    if i < |run.events| {
      assert run.Stepped(i);
    }
  }

  lemma ThenIsValid(run: Run, e: Event)
    requires run.Valid()
    ensures Then(run, e).Valid()
  {
    var longer := Then(run, e);
    forall i | 0 <= i < |longer.events| ensures longer.Stepped(i) {
      ThenSteps(run, e, i);
    }
  }

  /** Any events happen, one after the other, to any database. */
  lemma {:induction false} RunOf(cfg: Config, db: Db, events: seq<Event>) returns (run: Run)
    ensures run.Valid() && run.cfg == cfg && run.events == events && run.states[0] == db
  {
    if events == [] {
      run := Start(cfg, db);
    } else {
      var n := |events| - 1;
      run := RunOf(cfg, db, events[..n]);
      ThenIsValid(run, events[n]);
      run := Then(run, events[n]);
    }
  }

  lemma Obeys(run: Run, i: nat)
    requires run.Valid() && i < |run.events|
    ensures Lawful(run.states[i], run.events[i], Outcome(run.states[i + 1], run.replies[i]))
  {
    assert run.Stepped(i);
  }

  lemma RefreshAt(run: Run, i: nat)
    requires run.Valid() && i < |run.events| && run.events[i].request.Refresh?
    ensures var r := run.events[i].request;
            Outcome(run.states[i + 1], run.replies[i])
            == RefreshSpec(run.states[i], run.cfg, run.events[i].now, r.ctx, r.token, r.mint)
  {
    assert run.Stepped(i);
  }

  lemma AuthorizeAt(run: Run, i: nat)
    requires run.Valid() && i < |run.events| && run.events[i].request.Authorize?
    ensures var r := run.events[i].request;
            Outcome(run.states[i + 1], run.replies[i])
            == AuthorizeSpec(run.states[i], run.cfg, run.events[i].now, r.credential, r.params, r.newCode)
  {
    assert run.Stepped(i);
  }

  lemma ExchangeAt(run: Run, i: nat)
    requires run.Valid() && i < |run.events| && run.events[i].request.Exchange?
    ensures var r := run.events[i].request;
            Outcome(run.states[i + 1], run.replies[i])
            == ExchangeSpec(run.states[i], run.cfg, run.events[i].now, r.req, r.mint)
  {
    assert run.Stepped(i);
  }

  lemma ResetPasswordAt(run: Run, i: nat)
    requires run.Valid() && i < |run.events| && run.events[i].request.ResetPassword?
    ensures var r := run.events[i].request;
            Outcome(run.states[i + 1], run.replies[i])
            == ResetPasswordSpec(run.states[i], run.events[i].now, r.ctx, r.token, r.password, r.formatOk)
  {
    assert run.Stepped(i);
  }

  lemma LoginAt(run: Run, i: nat)
    requires run.Valid() && i < |run.events| && run.events[i].request.Login?
    ensures var r := run.events[i].request;
            Outcome(run.states[i + 1], run.replies[i])
            == LoginSpec(run.states[i], run.cfg, run.events[i].now, r.ctx, r.email, r.plain, r.mint)
  {
    assert run.Stepped(i);
  }

  lemma LoginUniversalAt(run: Run, i: nat)
    requires run.Valid() && i < |run.events| && run.events[i].request.LoginUniversal?
    ensures var r := run.events[i].request;
            Outcome(run.states[i + 1], run.replies[i])
            == LoginUniversalSpec(run.states[i], run.cfg, run.events[i].now, r.email, r.plain, r.mint)
  {
    assert run.Stepped(i);
  }

  lemma MfaSetupAt(run: Run, i: nat)
    requires run.Valid() && i < |run.events| && run.events[i].request.MfaSetup?
    ensures var r := run.events[i].request;
            Outcome(run.states[i + 1], run.replies[i])
            == MfaSetupSpec(run.states[i], run.cfg, run.events[i].now, r.ctx, r.bearer, r.secret)
  {
    assert run.Stepped(i);
  }

  lemma MfaConfirmAt(run: Run, i: nat)
    requires run.Valid() && i < |run.events| && run.events[i].request.MfaConfirm?
    ensures var r := run.events[i].request;
            Outcome(run.states[i + 1], run.replies[i])
            == MfaConfirmSpec(run.states[i], run.cfg, run.events[i].now, r.ctx, r.bearer, r.code)
  {
    assert run.Stepped(i);
  }

  lemma MfaDisableAt(run: Run, i: nat)
    requires run.Valid() && i < |run.events| && run.events[i].request.MfaDisable?
    ensures var r := run.events[i].request;
            Outcome(run.states[i + 1], run.replies[i])
            == MfaDisableSpec(run.states[i], run.cfg, run.events[i].now, r.ctx, r.bearer, r.code)
  {
    assert run.Stepped(i);
  }

  lemma MfaBackupCodesAt(run: Run, i: nat)
    requires run.Valid() && i < |run.events| && run.events[i].request.MfaBackupCodes?
    ensures var r := run.events[i].request;
            Outcome(run.states[i + 1], run.replies[i])
            == MfaBackupCodesSpec(run.states[i], run.cfg, run.events[i].now, r.ctx, r.bearer, r.code, r.drawn)
  {
    assert run.Stepped(i);
  }

  lemma MfaChallengeAt(run: Run, i: nat)
    requires run.Valid() && i < |run.events| && run.events[i].request.MfaChallenge?
    ensures var r := run.events[i].request;
            Outcome(run.states[i + 1], run.replies[i])
            == MfaChallengeSpec(run.states[i], run.cfg, run.events[i].now, r.ctx, r.mfaToken, r.totpCode, r.backupCode,
                                r.mint)
  {
    assert run.Stepped(i);
  }

  lemma AdminDisableMfaAt(run: Run, i: nat)
    requires run.Valid() && i < |run.events| && run.events[i].request.AdminDisableMfa?
    ensures var r := run.events[i].request;
            Outcome(run.states[i + 1], run.replies[i])
            == AdminDisableMfaSpec(run.states[i], run.cfg, run.events[i].now, r.headers, r.user)
  {
    assert run.Stepped(i);
  }

  lemma UpdateUserAt(run: Run, i: nat)
    requires run.Valid() && i < |run.events| && run.events[i].request.UpdateUser?
    ensures var r := run.events[i].request;
            Outcome(run.states[i + 1], run.replies[i])
            == UpdateUserSpec(run.states[i], run.cfg, run.events[i].now, r.headers, r.user, r.newEmail, r.newPassword,
                              r.active)
  {
    assert run.Stepped(i);
  }

  lemma VerifyEmailAt(run: Run, i: nat)
    requires run.Valid() && i < |run.events| && run.events[i].request.VerifyEmail?
    ensures var r := run.events[i].request;
            Outcome(run.states[i + 1], run.replies[i])
            == VerifyEmailSpec(run.states[i], run.events[i].now, r.ctx, r.email, r.otp)
  {
    assert run.Stepped(i);
  }

  lemma RegisterAt(run: Run, i: nat)
    requires run.Valid() && i < |run.events| && run.events[i].request.Register?
    ensures var r := run.events[i].request;
            Outcome(run.states[i + 1], run.replies[i])
            == RegisterSpec(run.states[i], run.events[i].now, r.ctx, r.email, r.password, r.formatOk, r.id, r.otp)
  {
    assert run.Stepped(i);
  }

  lemma ForgotPasswordAt(run: Run, i: nat)
    requires run.Valid() && i < |run.events| && run.events[i].request.ForgotPassword?
    ensures var r := run.events[i].request;
            Outcome(run.states[i + 1], run.replies[i])
            == ForgotPasswordSpec(run.states[i], run.events[i].now, r.ctx, r.email, r.drawnToken)
  {
    assert run.Stepped(i);
  }

  lemma IntrospectAt(run: Run, i: nat)
    requires run.Valid() && i < |run.events| && run.events[i].request.Introspect?
    ensures var r := run.events[i].request;
            Outcome(run.states[i + 1], run.replies[i])
            == IntrospectSpec(run.states[i], run.cfg, run.events[i].now, r.headers, r.presented)
  {
    assert run.Stepped(i);
  }

  lemma RateCheckAt(run: Run, i: nat)
    requires run.Valid() && i < |run.events| && run.events[i].request.RateCheck?
    ensures Outcome(run.states[i + 1], run.replies[i])
            == RateCheckSpec(run.states[i], run.events[i].now, run.events[i].request.key)
  {
    assert run.Stepped(i);
  }

  lemma LogoutAt(run: Run, i: nat)
    requires run.Valid() && i < |run.events| && run.events[i].request.Logout?
    ensures var r := run.events[i].request;
            Outcome(run.states[i + 1], run.replies[i])
            == LogoutSpec(run.states[i], run.cfg, run.events[i].now, r.ctx, r.bearer, r.cookie, r.refreshToken)
  {
    assert run.Stepped(i);
  }

  lemma OauthRevokeAt(run: Run, i: nat)
    requires run.Valid() && i < |run.events| && run.events[i].request.OauthRevoke?
    ensures var r := run.events[i].request;
            Outcome(run.states[i + 1], run.replies[i])
            == OauthRevokeSpec(run.states[i], run.cfg, run.events[i].now, r.bearer, r.presented, r.hintRefresh)
  {
    assert run.Stepped(i);
  }

  lemma RevokeAllAt(run: Run, i: nat)
    requires run.Valid() && i < |run.events| && run.events[i].request.RevokeAll?
    ensures var r := run.events[i].request;
            Outcome(run.states[i + 1], run.replies[i])
            == RevokeAllSpec(run.states[i], run.cfg, run.events[i].now, r.ctx, r.bearer)
  {
    assert run.Stepped(i);
  }

  lemma CleanupAt(run: Run, i: nat)
    requires run.Valid() && i < |run.events| && run.events[i].request.Cleanup?
    ensures var r := run.events[i].request;
            Outcome(run.states[i + 1], run.replies[i])
            == CleanupSpec(run.states[i], run.events[i].now)
  {
    assert run.Stepped(i);
  }
}
