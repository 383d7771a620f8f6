/** The reuse window of password changes over whole runs. */
module PasswordHistory {
  import opened Prelude
  import opened Uuids
  import opened AdminAuth
  import opened Crypto
  import opened Schema
  import opened Handlers
  import opened Runs

  /** The password that event `i` gives the account through a check-then-record path. */
  function ChosenAt(run: Run, i: nat, account: Owner): Option<string>
    requires run.Shaped() && i < |run.events|
  {
    var db, now := run.states[i], run.events[i].now;
    match run.events[i].request
    case ResetPassword(ctx, token, password, formatOk) =>
      if ctx.tenant == account.tenant
         && JudgeReset(db, now, ctx, token, password.plain, formatOk) == Accepted(account.user)
      then Some(password.plain) else None
    case UpdateUser(headers, user, newEmail, newPassword, _) =>
      if AdminAccount(run.cfg, now, headers, user) == Ok(account) && newPassword.Some?
         && UpdateCheck(db, run.cfg, account, newEmail, newPassword).Ok?
      then Some(newPassword.value.plain) else None
    case _ => None
  }

  /** The account's accepted passwords by event `i`, oldest first. */
  function Chosen(run: Run, i: nat, account: Owner): seq<string>
    requires run.Shaped() && i <= |run.events|
  {
    if i == 0 then []
    else Chosen(run, i - 1, account)
         + AsList(ChosenAt(run, i - 1, account))
  }

  function Plain(hashes: seq<PasswordHash>): (p: seq<string>)
    ensures |p| == |hashes|
  {
    seq(|hashes|, i requires 0 <= i < |hashes| => hashes[i].password)
  }

  function OnFile(db: Db, account: Owner): seq<string> { Plain(HashesOf(db.history, account)) }

  function AsList(p: Option<string>): seq<string> { if p.Some? then [p.value] else [] }

  lemma RememberedLast(rows: seq<HistoryRow>, o: Owner, p: NewPassword, now: Time, account: Owner)
    ensures Plain(HashesOf(Remembered(rows, o, p, now), account))
            == Plain(HashesOf(rows, account)) + if o == account then [p.plain] else []
  {
    assert Remembered(rows, o, p, now)[..|rows|] == rows;
  }

  lemma ResetRemembers(db: Db, now: Time, ctx: Ctx, token: string, password: NewPassword, formatOk: bool,
                       account: Owner)
    ensures OnFile(ResetPasswordSpec(db, now, ctx, token, password, formatOk).db, account)
            == OnFile(db, account)
               + if ctx.tenant == account.tenant
                    && JudgeReset(db, now, ctx, token, password.plain, formatOk) == Accepted(account.user)
                 then [password.plain] else []
  {
    var verdict := JudgeReset(db, now, ctx, token, password.plain, formatOk);
    if verdict.Accepted? {
      RememberedLast(db.history, Owner(ctx.tenant, verdict.user), password, now, account);
    }
  }

  lemma UpdateHistory(db: Db, cfg: Config, now: Time, headers: Headers, user: Uuid, newEmail: Option<string>,
                      newPassword: Option<NewPassword>, active: bool)
    ensures var who := AdminAccount(cfg, now, headers, user);
            UpdateUserSpec(db, cfg, now, headers, user, newEmail, newPassword, active).db.history
            == if who.Ok? && UpdateCheck(db, cfg, who.value, newEmail, newPassword).Ok?
               then HistoryAfterUpdate(db.history, who.value, newPassword, now) else db.history
  {}

  lemma UpdateRemembers(db: Db, cfg: Config, now: Time, headers: Headers, user: Uuid, newEmail: Option<string>,
                        newPassword: Option<NewPassword>, active: bool, account: Owner)
    ensures OnFile(UpdateUserSpec(db, cfg, now, headers, user, newEmail, newPassword, active).db, account)
            == OnFile(db, account)
               + if AdminAccount(cfg, now, headers, user) == Ok(account) && newPassword.Some?
                    && UpdateCheck(db, cfg, account, newEmail, newPassword).Ok?
                 then [newPassword.value.plain] else []
  {
    UpdateHistory(db, cfg, now, headers, user, newEmail, newPassword, active);
    var who := AdminAccount(cfg, now, headers, user);
    if who.Ok? && newPassword.Some? {
      RememberedLast(db.history, who.value, newPassword.value, now, account);
    }
  }

  lemma ResetRecordsChoice(run: Run, i: nat, account: Owner)
    requires run.Valid() && i < |run.events| && run.events[i].request.ResetPassword?
    ensures OnFile(run.states[i + 1], account) == OnFile(run.states[i], account) + AsList(ChosenAt(run, i, account))
  {
    var r := run.events[i].request;
    ResetPasswordAt(run, i);
    ResetRemembers(run.states[i], run.events[i].now, r.ctx, r.token, r.password, r.formatOk, account);
  }

  lemma UpdateRecordsChoice(run: Run, i: nat, account: Owner)
    requires run.Valid() && i < |run.events| && run.events[i].request.UpdateUser?
    ensures OnFile(run.states[i + 1], account) == OnFile(run.states[i], account) + AsList(ChosenAt(run, i, account))
  {
    var r := run.events[i].request;
    UpdateUserAt(run, i);
    UpdateRemembers(run.states[i], run.cfg, run.events[i].now, r.headers, r.user, r.newEmail, r.newPassword, r.active,
                    account);
  }

  /** The history grows by a chosen password, and by nothing else. */
  lemma HistoryRecordsChoice(run: Run, i: nat, account: Owner)
    requires run.Valid() && i < |run.events|
    ensures OnFile(run.states[i + 1], account) == OnFile(run.states[i], account) + AsList(ChosenAt(run, i, account))
  {
    if run.events[i].request.ResetPassword? {
      ResetRecordsChoice(run, i, account);
    } else if run.events[i].request.UpdateUser? {
      UpdateRecordsChoice(run, i, account);
    } else {
      Obeys(run, i);
    }
  }

  /** The history on file is exactly what was there at the start and every choice since, in order. */
  lemma {:induction false} HistoryIsChosen(run: Run, i: nat, account: Owner)
    requires run.Valid() && i <= |run.events|
    ensures OnFile(run.states[i], account) == OnFile(run.states[0], account) + Chosen(run, i, account)
  {
    if i > 0 {
      HistoryIsChosen(run, i - 1, account);
      HistoryRecordsChoice(run, i - 1, account);
    }
  }

  /** The check looks at the last `size` passwords on file: no fewer and no more. */
  lemma ReusesIffRecent(rows: seq<HistoryRow>, o: Owner, password: string, size: int)
    ensures Reuses(rows, o, password, size) <==> password in Newest(Plain(HashesOf(rows, o)), size)
  {
    var recent := Newest(HashesOf(rows, o), size);
    assert |Newest(Plain(HashesOf(rows, o)), size)| == |recent|;
    assert forall i :: 0 <= i < |recent| ==> Newest(Plain(HashesOf(rows, o)), size)[i] == recent[i].password;
  }

  /** With recording times that increase, the last rows in insertion order are the latest ones. */
  lemma NewestAreLatest(rows: seq<HistoryRow>, n: int, i: nat, k: nat)
    requires forall a, b :: 0 <= a < b < |rows| ==> rows[a].at < rows[b].at
    requires i < |rows| && k < |rows| && rows[i] in Newest(rows, n) && rows[k] !in Newest(rows, n)
    ensures rows[k].at < rows[i].at
  {}

  lemma {:induction false} HistorySizeStands(run: Run, i: nat)
    requires run.Valid() && i <= |run.events|
    ensures run.states[i].historySize == run.states[0].historySize
  {
    if i > 0 {
      HistorySizeStands(run, i - 1);
      Obeys(run, i - 1);
    }
  }

  lemma ChoiceIsNoReuse(run: Run, i: nat, account: Owner)
    requires run.Shaped() && i < |run.events| && ChosenAt(run, i, account).Some?
    ensures !Reuses(run.states[i].history, account, ChosenAt(run, i, account).value,
                    HistorySizeOf(run.states[i].historySize, account.tenant))
  {}

  /** A choice is none of the last N passwords on file. */
  lemma ChoiceIsNotRecent(run: Run, i: nat, account: Owner)
    requires run.Valid() && i < |run.events| && ChosenAt(run, i, account).Some?
    ensures ChosenAt(run, i, account).value
            !in Newest(OnFile(run.states[i], account), HistorySizeOf(run.states[0].historySize, account.tenant))
  {
    HistorySizeStands(run, i);
    ChoiceIsNoReuse(run, i, account);
    ReusesIffRecent(run.states[i].history, account, ChosenAt(run, i, account).value,
                    HistorySizeOf(run.states[0].historySize, account.tenant));
  }

  /** A choice differs from each of the N before it. */
  lemma ChoiceIsNew(run: Run, i: nat, account: Owner, a: nat)
    requires run.Valid() && i < |run.events| && ChosenAt(run, i, account).Some? && a < |Chosen(run, i, account)|
    requires |Chosen(run, i, account)| - a <= HistorySizeOf(run.states[0].historySize, account.tenant)
    ensures Chosen(run, i, account)[a] != ChosenAt(run, i, account).value
  {
    HistoryIsChosen(run, i, account);
    ChoiceIsNotRecent(run, i, account);
    InNewest(OnFile(run.states[0], account), Chosen(run, i, account), a,
             HistorySizeOf(run.states[0].historySize, account.tenant));
  }

  /** Each choice was made by an event, and those before it are the choices made by then. */
  lemma {:induction false} ChosenByEvent(run: Run, i: nat, account: Owner, b: nat) returns (m: nat)
    requires run.Shaped() && i <= |run.events| && b < |Chosen(run, i, account)|
    ensures m < i && Chosen(run, m, account) == Chosen(run, i, account)[..b]
    ensures ChosenAt(run, m, account) == Some(Chosen(run, i, account)[b])
  {
    var before := Chosen(run, i - 1, account);
    assert Chosen(run, i, account) == before + AsList(ChosenAt(run, i - 1, account));
    if b < |before| {
      m := ChosenByEvent(run, i - 1, account, b);
    } else {
      m := i - 1;
    }
  }

  /** The window: in a run of any length, with history size N, any N + 1 consecutive accepted
      passwords of an account are pairwise different. */
  lemma WindowIsDistinct(run: Run, i: nat, account: Owner, a: nat, b: nat)
    requires run.Valid() && i <= |run.events| && a < b < |Chosen(run, i, account)|
    requires b - a <= HistorySizeOf(run.states[0].historySize, account.tenant)
    ensures Chosen(run, i, account)[a] != Chosen(run, i, account)[b]
  {
    var m := ChosenByEvent(run, i, account, b);
    ChoiceIsNew(run, m, account, a);
  }

  lemma InNewest(older: seq<string>, s: seq<string>, a: nat, n: int)
    requires a < |s| && |s| - a <= n
    ensures s[a] in Newest(older + s, n)
  {
    var all := older + s;
    var newest := Newest(all, n);
    assert newest[|newest| - (|s| - a)] == s[a];
  }
}
