/** Credentials that work once: backup codes and one-time tokens. */
module SingleUse {
  import opened Prelude
  import opened Crypto
  import opened Jwt
  import opened Schema
  import opened Handlers
  import opened Runs

  // ── Which texts name the same backup code ──────────────────────────────────

  predicate SameLetter(a: char, b: char) {
    a == b || ('a' <= a <= 'z' && b as int == a as int - 32) || ('a' <= b <= 'z' && a as int == b as int - 32)
  }

  /** Equal up to hyphens and the case of ASCII letters. */
  predicate SameCode(a: string, b: string) {
    var x, y := WithoutHyphens(a), WithoutHyphens(b);
    |x| == |y| && forall i :: 0 <= i < |x| ==> SameLetter(x[i], y[i])
  }

  predicate Ascii(s: string) {
    forall i :: 0 <= i < |s| ==> s[i] as int < 128
  }

  lemma {:induction false} HyphensOfJoin(a: string, b: string)
    ensures WithoutHyphens(a + b) == WithoutHyphens(a) + WithoutHyphens(b)
  {
    if a == "" {
      assert a + b == b;
    } else {
      assert (a + b)[1..] == a[1..] + b;
      HyphensOfJoin(a[1..], b);
    }
  }

  /** Hyphens can be dropped before the fold as well as after it. */
  lemma {:induction false} HyphensFirst(upper: Fold, s: string)
    requires FoldsAscii(upper)
    ensures Canonical(upper, s) == Canonical(upper, WithoutHyphens(s))
  {
    if s != "" {
      HyphensFirst(upper, s[1..]);
      HyphensOfJoin(upper(s[0]), Uppercase(upper, s[1..]));
      var rest := WithoutHyphens(s[1..]);
      if s[0] == '-' {
        assert upper('-') == "-";
        OneLetter('-');
        assert WithoutHyphens(s) == "" + rest == rest;
        assert Canonical(upper, s) == "" + Canonical(upper, s[1..]) == Canonical(upper, s[1..]);
      } else {
        assert WithoutHyphens(s) == [s[0]] + rest && ([s[0]] + rest)[1..] == rest;
        HyphensOfJoin(upper(s[0]), Uppercase(upper, rest));
      }
    }
  }

  lemma OneLetter(c: char)
    ensures WithoutHyphens([c]) == if c == '-' then "" else [c]
  {
    assert [c][1..] == "";
  }

  lemma SameUpperCase(upper: Fold, a: char, b: char)
    requires FoldsAscii(upper) && SameLetter(a, b)
    ensures upper(a) == upper(b)
  {
    if a != b {
      assert upper(a) == [AsciiUpper(a)] && upper(b) == [AsciiUpper(b)];
    }
  }

  lemma {:induction false} SameFold(upper: Fold, x: string, y: string)
    requires FoldsAscii(upper) && |x| == |y| && forall i :: 0 <= i < |x| ==> SameLetter(x[i], y[i])
    ensures Uppercase(upper, x) == Uppercase(upper, y)
  {
    if x != "" {
      SameUpperCase(upper, x[0], y[0]);
      SameFold(upper, x[1..], y[1..]);
    }
  }

  /** Under whatever Unicode fold, hyphens and the case of ASCII letters make no difference. */
  lemma SameCodeSameHash(upper: Fold, a: string, b: string)
    requires FoldsAscii(upper) && SameCode(a, b)
    ensures HashBackup(upper, a) == HashBackup(upper, b)
  {
    HyphensFirst(upper, a);
    HyphensFirst(upper, b);
    SameFold(upper, WithoutHyphens(a), WithoutHyphens(b));
  }

  lemma {:induction false} AsciiWithoutHyphens(s: string)
    requires Ascii(s)
    ensures Ascii(WithoutHyphens(s)) && '-' !in WithoutHyphens(s)
  {
    if s != "" {
      AsciiWithoutHyphens(s[1..]);
    }
  }

  lemma {:induction false} AsciiFold(upper: Fold, s: string)
    requires FoldsAscii(upper) && Ascii(s) && '-' !in s
    ensures |Canonical(upper, s)| == |s| && forall i :: 0 <= i < |s| ==> Canonical(upper, s)[i] == AsciiUpper(s[i])
  {
    if s != "" {
      AsciiFold(upper, s[1..]);
      assert upper(s[0]) == [AsciiUpper(s[0])] && AsciiUpper(s[0]) != '-';
      HyphensOfJoin(upper(s[0]), Uppercase(upper, s[1..]));
      OneLetter(AsciiUpper(s[0]));
    }
  }

  lemma SameLetterIff(a: char, b: char)
    ensures AsciiUpper(a) == AsciiUpper(b) <==> SameLetter(a, b)
  {}

  /** Two ASCII texts are accepted as the same backup code exactly if they differ in nothing but hyphens
      and letter case. */
  lemma SameHashIffSameCode(upper: Fold, a: string, b: string)
    requires FoldsAscii(upper) && Ascii(a) && Ascii(b)
    ensures HashBackup(upper, a) == HashBackup(upper, b) <==> SameCode(a, b)
  {
    var x, y := WithoutHyphens(a), WithoutHyphens(b);
    if HashBackup(upper, a) == HashBackup(upper, b) {
      HyphensFirst(upper, a);
      HyphensFirst(upper, b);
      AsciiWithoutHyphens(a);
      AsciiWithoutHyphens(b);
      AsciiFold(upper, x);
      AsciiFold(upper, y);
      forall i | 0 <= i < |x| ensures SameLetter(x[i], y[i]) {
        assert Canonical(upper, x)[i] == Canonical(upper, y)[i];
        SameLetterIff(x[i], y[i]);
      }
    } else if SameCode(a, b) {
      SameCodeSameHash(upper, a, b);
    }
  }

  /** Beyond ASCII more texts name a code: a letter whose upper case is an ASCII letter, as U+017F has S,
      stands for that letter. */
  lemma NonAsciiVariant(upper: Fold, c: char, letter: char)
    requires FoldsAscii(upper) && c as int >= 128 && upper(c) == [letter] && 'A' <= letter <= 'Z'
    ensures HashBackup(upper, [c]) == HashBackup(upper, [letter]) && !SameCode([c], [letter])
  {
    assert [c][1..] == "" && [letter][1..] == "";
    assert upper(letter) == [letter];
    OneLetter(c);
    OneLetter(letter);
    assert !SameLetter([c][0], [letter][0]);
  }

  lemma HyphenBetween(a: string, b: string)
    requires '-' !in a && '-' !in b
    ensures WithoutHyphens(a + ['-'] + b) == a + b
  {
    NoHyphens(a);
    NoHyphens(b);
    OneLetter('-');
    HyphensOfJoin(a, ['-']);
    assert WithoutHyphens(a + ['-']) == a + "" == a;
    HyphensOfJoin(a + ['-'], b);
  }

  lemma DrawnLetters(code: string)
    requires DrawnCode(code)
    ensures var letters := code[..4] + code[5..];
            Ascii(letters) && '-' !in letters && forall i :: 0 <= i < |letters| ==> AsciiUpper(letters[i]) == letters[i]
  {}

  /** A drawn code is stored under its eight letters. */
  lemma DrawnIsCanonical(upper: Fold, code: string)
    requires FoldsAscii(upper) && DrawnCode(code)
    ensures Canonical(upper, code) == code[..4] + code[5..]
  {
    assert code == code[..4] + ['-'] + code[5..];
    HyphenBetween(code[..4], code[5..]);
    HyphensFirst(upper, code);
    DrawnLetters(code);
    AsciiFold(upper, code[..4] + code[5..]);
  }

  lemma {:induction false} NoHyphens(s: string)
    requires '-' !in s
    ensures WithoutHyphens(s) == s
  {
    if s != "" {
      NoHyphens(s[1..]);
    }
  }

  // ── Counting unused backup codes ───────────────────────────────────────────

  function OwnerOf(b: BackupRow): Owner { Owner(b.tenant, b.user) }

  function Unused(rows: seq<BackupRow>, o: Owner): nat {
    if rows == [] then 0
    else (if OwnerOf(rows[0]) == o && rows[0].usedAt.None? then 1 else 0) + Unused(rows[1..], o)
  }

  /** The hashes on file for an account, used or not. */
  function CodesOf(rows: seq<BackupRow>, o: Owner): seq<Digest> {
    if rows == [] then []
    else (if OwnerOf(rows[0]) == o then [rows[0].code] else []) + CodesOf(rows[1..], o)
  }

  lemma {:induction false} BackupsAppend(a: seq<BackupRow>, b: seq<BackupRow>, o: Owner)
    ensures Unused(a + b, o) == Unused(a, o) + Unused(b, o)
    ensures CodesOf(a + b, o) == CodesOf(a, o) + CodesOf(b, o)
  {
    if a == [] {
      assert a + b == b;
    } else {
      assert (a + b)[1..] == a[1..] + b;
      BackupsAppend(a[1..], b, o);
    }
  }

  lemma {:induction false} BackupsDeleted(rows: seq<BackupRow>, gone: Owner, o: Owner)
    ensures Unused(WithoutBackups(rows, gone), o) == if o == gone then 0 else Unused(rows, o)
    ensures CodesOf(WithoutBackups(rows, gone), o) == if o == gone then [] else CodesOf(rows, o)
  {
    if rows != [] {
      BackupsDeleted(rows[1..], gone, o);
      var head := if OwnerOf(rows[0]) == gone then [] else [rows[0]];
      BackupsAppend(head, WithoutBackups(rows[1..], gone), o);
    }
  }

  lemma {:induction false} BackupsDrawn(upper: Fold, codes: seq<string>, mine: Owner, o: Owner)
    ensures Unused(BackupRows(upper, codes, mine), o) == if o == mine then |codes| else 0
    ensures CodesOf(BackupRows(upper, codes, mine), o)
            == if o == mine then seq(|codes|, i requires 0 <= i < |codes| => HashBackup(upper, codes[i])) else []
  {
    if codes != [] {
      BackupsDrawn(upper, codes[1..], mine, o);
      assert BackupRows(upper, codes, mine)[1..] == BackupRows(upper, codes[1..], mine);
    }
  }

  lemma {:induction false} BackupsUsed(rows: seq<BackupRow>, k: nat, now: Time, o: Owner)
    requires k < |rows| && rows[k].usedAt.None?
    ensures var after := rows[k := rows[k].(usedAt := Some(now))];
            && Unused(after, o) == Unused(rows, o) - (if OwnerOf(rows[k]) == o then 1 else 0)
            && CodesOf(after, o) == CodesOf(rows, o)
  {
    var after := rows[k := rows[k].(usedAt := Some(now))];
    if k > 0 {
      assert after[1..] == rows[1..][k - 1 := rows[k].(usedAt := Some(now))];
      BackupsUsed(rows[1..], k - 1, now, o);
    }
  }

  lemma {:induction false} CodeOnFile(rows: seq<BackupRow>, k: nat)
    requires k < |rows|
    ensures rows[k].code in CodesOf(rows, OwnerOf(rows[k]))
  {
    if k > 0 {
      CodeOnFile(rows[1..], k - 1);
    }
  }

  // ── Backup codes over a run ────────────────────────────────────────────────

  /** Event `m` generates the account's ten codes. */
  predicate Generates(run: Run, m: nat, account: Owner)
    requires run.Shaped()
  {
    m < |run.events| && run.events[m].request.MfaBackupCodes? && run.replies[m].BackupIssued?
    && var r := run.events[m].request;
       Reauthenticate(run.states[m], run.cfg, run.events[m].now, r.ctx, r.bearer, r.code) == Ok(account)
  }

  /** Event `m` deletes the account's codes. */
  predicate Deletes(run: Run, m: nat, account: Owner)
    requires run.Shaped()
  {
    m < |run.events| && run.replies[m] == Done
    && match run.events[m].request
       case AdminDisableMfa(headers, user) =>
         AdminAccount(run.cfg, run.events[m].now, headers, user) == Ok(account)
       case MfaDisable(ctx, bearer, code) =>
         Reauthenticate(run.states[m], run.cfg, run.events[m].now, ctx, bearer, code) == Ok(account)
       case _ => false
  }

  /** The account that pays a challenge with an unused backup code, unless an internal error
      undoes the step. */
  function Payer(db: Db, cfg: Config, now: Time, ctx: Ctx, mfaToken: Token, totpCode: Option<string>,
                 backupCode: Option<string>): Option<Owner>
  {
    match Challenged(cfg, now, ctx, mfaToken)
    case None => None
    case Some(o) =>
      if !MfaEnabled(db.totp, o) || totpCode.Some? || backupCode.None?
         || FindBackup(db.backup, o, HashBackup(cfg.upper, backupCode.value)) == |db.backup|
      then None
      else
        match VisibleUser(db.users, o.tenant, o.user)
        case None => None
        case Some(user) => if user.active && Open(user.email, ctx.key).None? then None else Some(o)
  }

  /** Event `m` is a challenge that the account pays with a backup code. */
  predicate Consumes(run: Run, m: nat, account: Owner)
    requires run.Shaped()
  {
    m < |run.events| && run.events[m].request.MfaChallenge?
    && var r := run.events[m].request;
       Payer(run.states[m], run.cfg, run.events[m].now, r.ctx, r.mfaToken, r.totpCode, r.backupCode) == Some(account)
  }

  function Consumptions(run: Run, from: nat, i: nat, account: Owner): nat
    requires run.Shaped()
    decreases i
  {
    if i <= from then 0
    else Consumptions(run, from, i - 1, account) + if Consumes(run, i - 1, account) then 1 else 0
  }

  /** Only a payer's challenge touches the table, and it uses up the one row its code redeems. A payer
      gets tokens exactly if active, and a non-payer without a TOTP code never does. */
  lemma ChallengeRedeems(db: Db, cfg: Config, now: Time, ctx: Ctx, mfaToken: Token, totpCode: Option<string>,
                         backupCode: Option<string>, mint: Issuance)
    ensures var o := MfaChallengeSpec(db, cfg, now, ctx, mfaToken, totpCode, backupCode, mint);
            match Payer(db, cfg, now, ctx, mfaToken, totpCode, backupCode)
            case None => o.db.backup == db.backup && (o.reply.Tokens? ==> totpCode.Some?)
            case Some(account) => o.db.backup == RedeemBackup(cfg.upper, db.backup, account, backupCode.value, now)
                                  && account.user in db.users
                                  && (o.reply.Tokens? <==> db.users[account.user].active)
  {}

  lemma ChallengeMovesOneCode(run: Run, m: nat, account: Owner)
    requires run.Valid() && m < |run.events| && run.events[m].request.MfaChallenge?
    ensures var before, after := run.states[m].backup, run.states[m + 1].backup;
            && Unused(after, account) == Unused(before, account) - (if Consumes(run, m, account) then 1 else 0)
            && CodesOf(after, account) == CodesOf(before, account)
  {
    MfaChallengeAt(run, m);
    var db, now, r := run.states[m], run.events[m].now, run.events[m].request;
    ChallengeRedeems(db, run.cfg, now, r.ctx, r.mfaToken, r.totpCode, r.backupCode, r.mint);
    var payer := Payer(db, run.cfg, now, r.ctx, r.mfaToken, r.totpCode, r.backupCode);
    if payer.Some? {
      BackupsUsed(db.backup, FindBackup(db.backup, payer.value, HashBackup(run.cfg.upper, r.backupCode.value)), now,
                  account);
    }
  }

  lemma GenerationReplacesCodes(run: Run, m: nat, account: Owner)
    requires run.Valid() && m < |run.events| && run.events[m].request.MfaBackupCodes?
    ensures var before, after := run.states[m].backup, run.states[m + 1].backup;
            if Generates(run, m, account) then
              var drawn := run.events[m].request.drawn;
              && run.replies[m] == BackupIssued(drawn)
              && Unused(after, account) == BACKUP_CODE_COUNT
              && CodesOf(after, account)
                 == seq(|drawn|, i requires 0 <= i < |drawn| => HashBackup(run.cfg.upper, drawn[i]))
            else
              Unused(after, account) == Unused(before, account) && CodesOf(after, account) == CodesOf(before, account)
  {
    MfaBackupCodesAt(run, m);
    var db, r := run.states[m], run.events[m].request;
    var who := Reauthenticate(db, run.cfg, run.events[m].now, r.ctx, r.bearer, r.code);
    if who.Ok? {
      BackupsDeleted(db.backup, who.value, account);
      BackupsDrawn(run.cfg.upper, r.drawn, who.value, account);
      BackupsAppend(WithoutBackups(db.backup, who.value), BackupRows(run.cfg.upper, r.drawn, who.value), account);
    }
  }

  lemma DeletionSparesOthers(run: Run, m: nat, account: Owner)
    requires run.Valid() && m < |run.events| && !Deletes(run, m, account)
    requires run.events[m].request.MfaDisable? || run.events[m].request.AdminDisableMfa?
    ensures var before, after := run.states[m].backup, run.states[m + 1].backup;
            Unused(after, account) == Unused(before, account) && CodesOf(after, account) == CodesOf(before, account)
  {
    var db, r := run.states[m], run.events[m].request;
    if r.AdminDisableMfa? {
      AdminDisableMfaAt(run, m);
      var who := AdminAccount(run.cfg, run.events[m].now, r.headers, r.user);
      if who.Ok? {
        BackupsDeleted(db.backup, who.value, account);
      }
    } else {
      MfaDisableAt(run, m);
      var who := Reauthenticate(db, run.cfg, run.events[m].now, r.ctx, r.bearer, r.code);
      if who.Ok? {
        BackupsDeleted(db.backup, who.value, account);
      }
    }
  }

  lemma BackupsMove(run: Run, m: nat, account: Owner)
    requires run.Valid() && m < |run.events| && !Generates(run, m, account) && !Deletes(run, m, account)
    ensures var before, after := run.states[m].backup, run.states[m + 1].backup;
            && Unused(after, account) == Unused(before, account) - (if Consumes(run, m, account) then 1 else 0)
            && CodesOf(after, account) == CodesOf(before, account)
  {
    match run.events[m].request
    case MfaChallenge(_, _, _, _, _) => ChallengeMovesOneCode(run, m, account);
    case MfaBackupCodes(_, _, _, _) => GenerationReplacesCodes(run, m, account);
    case MfaDisable(_, _, _) => DeletionSparesOthers(run, m, account);
    case AdminDisableMfa(_, _) => DeletionSparesOthers(run, m, account);
    case _ => Obeys(run, m);
  }

  /** Conservation: from its generation until its replacement or deletion, a set of ten codes is
      always its unused codes plus the consumptions so far, and nothing else is ever on file. */
  lemma {:induction false} UnusedPlusConsumedIsTen(run: Run, g: nat, i: nat, account: Owner)
    requires run.Valid() && g < i <= |run.events| && Generates(run, g, account)
    requires forall m :: g < m < i ==> !Generates(run, m, account) && !Deletes(run, m, account)
    ensures Unused(run.states[i].backup, account) + Consumptions(run, g + 1, i, account) == BACKUP_CODE_COUNT
    ensures var drawn := run.events[g].request.drawn;
            CodesOf(run.states[i].backup, account)
            == seq(|drawn|, d requires 0 <= d < |drawn| => HashBackup(run.cfg.upper, drawn[d]))
  {
    if i == g + 1 {
      GenerationReplacesCodes(run, g, account);
    } else {
      UnusedPlusConsumedIsTen(run, g, i - 1, account);
      BackupsMove(run, i - 1, account);
    }
  }

  /** What is consumed was issued: the text presented has the same canonical letters as one of the ten,
      and an ASCII text differs from it in hyphens and case at most. */
  lemma ConsumedWasIssued(run: Run, g: nat, i: nat, account: Owner) returns (d: nat)
    requires run.Valid() && FoldsAscii(run.cfg.upper)
    requires g < i < |run.events| && Generates(run, g, account) && Consumes(run, i, account)
    requires forall m :: g < m < i ==> !Generates(run, m, account) && !Deletes(run, m, account)
    ensures d < BACKUP_CODE_COUNT
    ensures var code, drawn := run.events[i].request.backupCode.value, run.events[g].request.drawn[d];
            && HashBackup(run.cfg.upper, code) == HashBackup(run.cfg.upper, drawn)
            && (DrawnCode(drawn) ==> Canonical(run.cfg.upper, code) == drawn[..4] + drawn[5..])
            && (Ascii(code) && Ascii(drawn) ==> SameCode(code, drawn))
  {
    UnusedPlusConsumedIsTen(run, g, i, account);
    var rows, code := run.states[i].backup, run.events[i].request.backupCode.value;
    var k := FindBackup(rows, account, HashBackup(run.cfg.upper, code));
    CodeOnFile(rows, k);
    var hashes := CodesOf(rows, account);
    d :| 0 <= d < |hashes| && hashes[d] == rows[k].code;
    var drawn := run.events[g].request.drawn[d];
    if DrawnCode(drawn) {
      DrawnIsCanonical(run.cfg.upper, drawn);
    }
    if Ascii(code) && Ascii(drawn) {
      SameHashIffSameCode(run.cfg.upper, code, drawn);
    }
  }

  /** A consumption is answered with tokens exactly if the user is active; otherwise the code is
      gone all the same. And tokens without a TOTP code always cost a backup code. */
  lemma ConsumptionsPayForTokens(run: Run, m: nat)
    requires run.Valid() && m < |run.events| && run.events[m].request.MfaChallenge?
    ensures forall account :: Consumes(run, m, account)
              ==> account.user in run.states[m].users
                  && (run.replies[m].Tokens? <==> run.states[m].users[account.user].active)
    ensures run.replies[m].Tokens? && run.events[m].request.totpCode.None?
            ==> exists account :: Consumes(run, m, account)
  {
    MfaChallengeAt(run, m);
    var db, now, r := run.states[m], run.events[m].now, run.events[m].request;
    ChallengeRedeems(db, run.cfg, now, r.ctx, r.mfaToken, r.totpCode, r.backupCode, r.mint);
    var payer := Payer(db, run.cfg, now, r.ctx, r.mfaToken, r.totpCode, r.backupCode);
    assert payer.Some? ==> Consumes(run, m, payer.value);
  }

  // ── One-time tokens ────────────────────────────────────────────────────────

  /** Event `i` spends the row of `h`: a reset that gets past the token, or a verified address. */
  ghost predicate Spends(run: Run, i: nat, h: Digest)
    requires run.Shaped()
  {
    i < |run.events|
    && var db, now := run.states[i], run.events[i].now;
       match run.events[i].request
       case ResetPassword(ctx, token, password, formatOk) =>
         h == Sha256(token) && !JudgeReset(db, now, ctx, token, password.plain, formatOk).TokenRefused?
       case VerifyEmail(ctx, email, otp) =>
         run.replies[i] == Done
         && var id := FindByLookup(db.users, ctx.tenant, Lookup(email, ctx.key));
            id.Some? && h == OtpHash(id.value, otp)
       case _ => false
  }

  function KindFor(r: Request): OneTimeKind {
    if r.ResetPassword? then PasswordReset else EmailVerification
  }

  /** A row is spent only unused, unexpired and for the purpose it was stored for. */
  lemma SpendingRules(run: Run, i: nat, h: Digest)
    requires run.Valid() && Spends(run, i, h)
    ensures h in run.states[i].oneTime
    ensures var row := run.states[i].oneTime[h];
            row.usedAt.None? && run.events[i].now <= row.expiresAt && row.kind == KindFor(run.events[i].request)
    ensures h in run.states[i + 1].oneTime && run.states[i + 1].oneTime[h].usedAt.Some?
  {
    if run.events[i].request.ResetPassword? {
      ResetPasswordAt(run, i);
    } else {
      VerifyEmailAt(run, i);
    }
  }

  /** A one-time row stays, keeps its purpose and its expiry, and its use is never forgotten. */
  lemma OneTimeRowsStay(run: Run, i: nat)
    requires run.Valid() && i < |run.events|
    ensures OneTimeKept(run.states[i].oneTime, run.states[i + 1].oneTime)
  {
    match run.events[i].request
    case Register(_, _, _, _, _, _) => RegisterAt(run, i);
    case VerifyEmail(_, _, _) => VerifyEmailAt(run, i);
    case ForgotPassword(_, _, _) => ForgotPasswordAt(run, i);
    case ResetPassword(_, _, _, _) => ResetPasswordAt(run, i);
    case _ => Obeys(run, i);
  }

  lemma {:induction false} UsedRowsStayUsed(run: Run, i: nat, k: nat, h: Digest)
    requires run.Valid() && i <= k <= |run.events|
    requires h in run.states[i].oneTime && run.states[i].oneTime[h].usedAt.Some?
    ensures h in run.states[k].oneTime && run.states[k].oneTime[h] == run.states[i].oneTime[h]
  {
    if i < k {
      UsedRowsStayUsed(run, i, k - 1, h);
      OneTimeRowsStay(run, k - 1);
    }
  }

  /** No one-time token is accepted twice, however far apart and by whichever of its handlers. */
  lemma SpentOnce(run: Run, i: nat, k: nat, h: Digest)
    requires run.Valid() && Spends(run, i, h) && i < k
    ensures !Spends(run, k, h)
  {
    if Spends(run, k, h) {
      SpendingRules(run, i, h);
      UsedRowsStayUsed(run, i + 1, k, h);
      SpendingRules(run, k, h);
    }
  }
}
