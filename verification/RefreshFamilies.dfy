/** Refresh-token rotation over whole runs (section 6 of RFC 6749). */
module RefreshFamilies {
  import opened Prelude
  import opened Uuids
  import opened Crypto
  import opened Schema
  import opened Handlers
  import opened Runs

  /** Event `i` is a refresh that was answered with tokens. */
  predicate Rotates(run: Run, i: nat)
    requires run.Shaped()
  {
    i < |run.events| && run.events[i].request.Refresh? && run.replies[i].Tokens?
  }

  function Shown(run: Run, i: nat): string
    requires run.Shaped() && Rotates(run, i)
  {
    run.events[i].request.token
  }

  /** The token handed out in exchange. */
  function Minted(run: Run, i: nat): string
    requires run.Shaped() && Rotates(run, i)
  {
    run.replies[i].refresh
  }

  /** The account whose token event `i` rotates. */
  ghost predicate Serves(run: Run, i: nat, account: Owner)
    requires run.Shaped()
  {
    Rotates(run, i)
    && RefreshAccount(run.states[i], run.events[i].request.ctx, Shown(run, i), run.events[i].now) == Ok(account)
  }

  predicate MintsAt(run: Run, i: nat, h: Digest) {
    i < |run.events| && MintsHash(run.events[i].request, h)
  }

  /** Random tokens do not repeat: no value is drawn twice, nor one whose hash is on file at the start. */
  ghost predicate FreshMints(run: Run)
    requires run.Shaped()
  {
    && (forall i, h :: MintsAt(run, i, h) ==> h !in run.states[0].refresh)
    && (forall i, j, h :: i < j && MintsAt(run, i, h) ==> !MintsAt(run, j, h))
  }

  predicate Dead(table: RefreshTable, h: Digest) {
    h in table ==> table[h].revokedAt.Some?
  }

  /** A token drawn at `k` was on file in no state up to `k`. */
  lemma {:induction false} UnknownUntilMinted(run: Run, i: nat, k: nat, h: Digest)
    requires run.Valid() && FreshMints(run) && i <= k && MintsAt(run, k, h)
    ensures h !in run.states[i].refresh
  {
    if i > 0 {
      UnknownUntilMinted(run, i - 1, k, h);
      Obeys(run, i - 1);
      assert !MintsAt(run, i - 1, h);
    }
  }

  /** A dead token stays dead as long as it is not drawn again. */
  lemma {:induction false} DeadForGood(run: Run, i: nat, k: nat, h: Digest)
    requires run.Valid() && i <= k <= |run.events|
    requires Dead(run.states[i].refresh, h)
    requires forall m :: i <= m < k ==> !MintsAt(run, m, h)
    ensures Dead(run.states[k].refresh, h)
  {
    if i < k {
      DeadForGood(run, i, k - 1, h);
      Obeys(run, k - 1);
      assert !MintsAt(run, k - 1, h);
    }
  }

  /** What an accepted refresh found and left behind. */
  lemma AcceptedRotates(run: Run, i: nat)
    requires run.Valid() && FreshMints(run) && Rotates(run, i)
    ensures var spent, drawn := Sha256(Shown(run, i)), Sha256(Minted(run, i));
            && spent != drawn
            && MintsAt(run, i, drawn)
            && spent in run.states[i].refresh && Live(run.states[i].refresh[spent], run.events[i].now)
            && Dead(run.states[i + 1].refresh, spent) && spent in run.states[i + 1].refresh
            && drawn in run.states[i + 1].refresh
            && run.states[i + 1].refresh[drawn].user == run.states[i].refresh[spent].user
  {
    RefreshAt(run, i);
    UnknownUntilMinted(run, i, i, Sha256(Minted(run, i)));
  }

  /** Each token value is accepted at most once over any run. */
  lemma AcceptedOnce(run: Run, i: nat, k: nat)
    requires run.Valid() && FreshMints(run) && Rotates(run, i) && Rotates(run, k) && i < k
    ensures Shown(run, i) != Shown(run, k)
  {
    var h := Sha256(Shown(run, i));
    AcceptedRotates(run, i);
    forall m | i + 1 <= m < k ensures !MintsAt(run, m, h) {
      if MintsAt(run, m, h) {
        UnknownUntilMinted(run, i, m, h);
      }
    }
    DeadForGood(run, i + 1, k, h);
    AcceptedRotates(run, k);
  }

  /** The tokens descended from `root` by the first `i` events, in the order they were handed out. */
  ghost function Family(run: Run, root: string, i: nat): (tokens: seq<string>)
    requires run.Shaped() && i <= |run.events|
    ensures |tokens| >= 1 && tokens[0] == root
  {
    if i == 0 then [root]
    else
      var tokens := Family(run, root, i - 1);
      if Rotates(run, i - 1) && Shown(run, i - 1) in tokens then tokens + [Minted(run, i - 1)] else tokens
  }

  /** `h` was on file in some state up to `i`. */
  ghost predicate SeenBy(run: Run, i: nat, h: Digest)
    requires run.Shaped()
  {
    exists s :: 0 <= s <= i && s < |run.states| && h in run.states[s].refresh
  }

  lemma SeenIsNotMintedLater(run: Run, i: nat, k: nat, h: Digest)
    requires run.Valid() && FreshMints(run) && SeenBy(run, i, h) && i <= k
    ensures !MintsAt(run, k, h)
  {
    var s :| 0 <= s <= i && s < |run.states| && h in run.states[s].refresh;
    if MintsAt(run, k, h) {
      UnknownUntilMinted(run, s, k, h);
    }
  }

  ghost predicate Line(run: Run, tokens: seq<string>, i: nat)
    requires run.Shaped() && i < |run.states|
  {
    && (forall a :: 0 <= a < |tokens| && (a > 0 || |tokens| > 1) ==> SeenBy(run, i, Sha256(tokens[a])))
    && (forall a :: 0 <= a < |tokens| - 1 ==> Dead(run.states[i].refresh, Sha256(tokens[a])))
    && (forall a, b :: 0 <= a < b < |tokens| ==> tokens[a] != tokens[b])
  }

  /** Rotation never branches: in every state of every run the members of a family are distinct
      and all but the newest are dead, so at most one can still be redeemed. */
  lemma {:induction false} FamilyIsALine(run: Run, root: string, i: nat)
    requires run.Valid() && FreshMints(run) && i <= |run.events|
    ensures Line(run, Family(run, root, i), i)
  {
    if i == 0 {
      RootIsALine(run, root);
    } else {
      FamilyIsALine(run, root, i - 1);
      FamilyStep(run, root, i - 1, i);
    }
  }

  lemma RootIsALine(run: Run, root: string)
    requires run.Valid()
    ensures Line(run, Family(run, root, 0), 0)
  {}

  lemma FamilyStep(run: Run, root: string, i: nat, next: nat)
    requires run.Valid() && FreshMints(run) && i < |run.events| && next == i + 1 && Line(run, Family(run, root, i), i)
    ensures Line(run, Family(run, root, next), next)
  {
    var tokens := Family(run, root, i);
    LineSurvivesStep(run, tokens, i);
    if Rotates(run, i) && Shown(run, i) in tokens {
      LineAcceptsNewest(run, tokens, i);
      NewestIsNew(run, tokens, i);
    }
  }

  lemma LineSurvivesStep(run: Run, tokens: seq<string>, i: nat)
    requires run.Valid() && FreshMints(run) && i < |run.events| && Line(run, tokens, i)
    ensures Line(run, tokens, i + 1)
  {
    forall a | 0 <= a < |tokens| && (a > 0 || |tokens| > 1)
      ensures SeenBy(run, i + 1, Sha256(tokens[a]))
      ensures a < |tokens| - 1 ==> Dead(run.states[i + 1].refresh, Sha256(tokens[a]))
    {
      var h := Sha256(tokens[a]);
      var s :| 0 <= s <= i && s < |run.states| && h in run.states[s].refresh;
      assert 0 <= s <= i + 1;
      if a < |tokens| - 1 {
        SeenIsNotMintedLater(run, i, i, h);
        DeadForGood(run, i, i + 1, h);
      }
    }
  }

  lemma NewestIsNew(run: Run, tokens: seq<string>, i: nat)
    requires run.Valid() && FreshMints(run) && Rotates(run, i) && Line(run, tokens, i) && Line(run, tokens, i + 1)
    requires tokens != [] && Shown(run, i) == tokens[|tokens| - 1]
    ensures Line(run, tokens + [Minted(run, i)], i + 1)
  {
    AcceptedRotates(run, i);
    var longer := tokens + [Minted(run, i)];
    var drawn := Sha256(Minted(run, i));
    forall a | 0 <= a < |tokens|
      ensures SeenBy(run, i + 1, Sha256(longer[a])) && tokens[a] != Minted(run, i)
      ensures Dead(run.states[i + 1].refresh, Sha256(longer[a]))
    {
      if a == |tokens| - 1 {
        assert Sha256(tokens[a]) in run.states[i + 1].refresh;
      } else {
        SeenIsNotMintedLater(run, i, i, Sha256(tokens[a]));
      }
    }
    assert SeenBy(run, i + 1, drawn);
  }

  lemma LineAcceptsNewest(run: Run, tokens: seq<string>, i: nat)
    requires run.Valid() && FreshMints(run) && Rotates(run, i) && Line(run, tokens, i) && Shown(run, i) in tokens
    ensures Shown(run, i) == tokens[|tokens| - 1]
  {
    AcceptedRotates(run, i);
  }

  /** The only member of a family that a refresh ever accepts is its newest. */
  lemma OnlyNewestIsAccepted(run: Run, root: string, i: nat)
    requires run.Valid() && FreshMints(run) && Rotates(run, i) && Shown(run, i) in Family(run, root, i)
    ensures var tokens := Family(run, root, i); Shown(run, i) == tokens[|tokens| - 1]
  {
    FamilyIsALine(run, root, i);
    LineAcceptsNewest(run, Family(run, root, i), i);
  }

  /** At most one member of a family is live at any moment. */
  lemma AtMostOneLive(run: Run, root: string, i: nat, a: string, b: string, now: Time)
    requires run.Valid() && FreshMints(run) && i <= |run.events|
    requires a in Family(run, root, i) && b in Family(run, root, i)
    requires Sha256(a) in run.states[i].refresh && Live(run.states[i].refresh[Sha256(a)], now)
    requires Sha256(b) in run.states[i].refresh && Live(run.states[i].refresh[Sha256(b)], now)
    ensures a == b
  {
    FamilyIsALine(run, root, i);
  }

  // ── Reuse ──────────────────────────────────────────────────────────────────

  /** A refresh that is refused changes nothing at all. */
  lemma RefusedRefreshIsInert(db: Db, cfg: Config, now: Time, ctx: Ctx, token: string, mint: Issuance)
    requires RefreshSpec(db, cfg, now, ctx, token, mint).reply.Refused?
    ensures RefreshSpec(db, cfg, now, ctx, token, mint).db == db
  {}

  /** Showing a token that was rotated before is refused, and that is all: the tables stand, and the
      newest member of the family, if it was live, stays live. */
  lemma ReuseOnlyRefused(run: Run, root: string, i: nat, newest: string)
    requires run.Valid() && FreshMints(run) && i < |run.events| && run.events[i].request.Refresh?
    requires var tokens := Family(run, root, i);
             newest == tokens[|tokens| - 1] && run.events[i].request.token in tokens[..|tokens| - 1]
    ensures run.replies[i].Refused? && run.states[i + 1] == run.states[i]
    ensures Family(run, root, i + 1) == Family(run, root, i)
    ensures Dead(run.states[i + 1].refresh, Sha256(newest)) <==> Dead(run.states[i].refresh, Sha256(newest))
  {
    FamilyIsALine(run, root, i);
    RefreshAt(run, i);
    if Rotates(run, i) {
      OnlyNewestIsAccepted(run, root, i);
    }
  }

  // ── Conservation in one step ───────────────────────────────────────────────

  function LiveOf(table: RefreshTable, account: Owner, now: Time): set<Digest> {
    set h | h in table && Owner(table[h].tenant, table[h].user) == account && Live(table[h], now)
  }

  /** A successful rotation exchanges one live token for another: the account's live count is
      unchanged if the configured lifetime is positive, and drops by one otherwise. */
  lemma RotationConservesLiveCount(db: Db, cfg: Config, now: Time, ctx: Ctx, token: string, mint: Issuance)
    requires Sha256(mint.refresh) !in db.refresh
    requires RefreshSpec(db, cfg, now, ctx, token, mint).reply.Tokens?
    ensures RefreshAccount(db, ctx, token, now).Ok?
    ensures var account := RefreshAccount(db, ctx, token, now).value;
            var after := RefreshSpec(db, cfg, now, ctx, token, mint).db.refresh;
            |LiveOf(after, account, now)| == |LiveOf(db.refresh, account, now)| - if cfg.refreshDays > 0 then 0 else 1
  {
    var account := RefreshAccount(db, ctx, token, now).value;
    var after := RefreshSpec(db, cfg, now, ctx, token, mint).db.refresh;
    var spent, drawn := Sha256(token), Sha256(mint.refresh);
    var kept := LiveOf(db.refresh, account, now) - {spent};
    assert spent in LiveOf(db.refresh, account, now) && drawn !in kept;
    assert LiveOf(after, account, now) == if cfg.refreshDays > 0 then kept + {drawn} else kept;
  }

  /** And the token handed out is the live one. */
  lemma HandedOutIsLive(db: Db, cfg: Config, now: Time, ctx: Ctx, token: string, mint: Issuance)
    requires RefreshSpec(db, cfg, now, ctx, token, mint).reply.Tokens?
    ensures var o := RefreshSpec(db, cfg, now, ctx, token, mint);
            var h := Sha256(o.reply.refresh);
            h in o.db.refresh && (Live(o.db.refresh[h], now) <==> cfg.refreshDays > 0)
  {}

  /** No other account's live tokens move. */
  lemma RotationLeavesOthers(db: Db, cfg: Config, now: Time, ctx: Ctx, token: string, mint: Issuance, other: Owner)
    requires Sha256(mint.refresh) !in db.refresh
    requires RefreshAccount(db, ctx, token, now) != Ok(other)
    ensures LiveOf(RefreshSpec(db, cfg, now, ctx, token, mint).db.refresh, other, now) == LiveOf(db.refresh, other, now)
  {
    var o := RefreshSpec(db, cfg, now, ctx, token, mint);
    assert forall h :: h in LiveOf(o.db.refresh, other, now) <==> h in LiveOf(db.refresh, other, now);
  }
}
