/** What some changes come to, row by row: which rows are there afterwards, and what they hold. Each
    description is met by exactly one outcome, the one its function computes. */
module Effects {
  import opened Prelude
  import opened Uuids
  import opened Crypto
  import opened RateLimit
  import opened Schema
  import opened Handlers

  // ── Lists from which rows were deleted ─────────────────────────────────────

  /** The attempts made at or after `cutoff`, and no others, in their order. */
  ghost predicate AttemptsSince(before: seq<Attempt>, after: seq<Attempt>, cutoff: Time) {
    exists p :: Picks(before, after, p) && RecentAt(before, cutoff, p)
  }

  ghost predicate RecentAt(rows: seq<Attempt>, cutoff: Time, p: seq<nat>) {
    forall i: nat :: i in p <==> i < |rows| && rows[i].at >= cutoff
  }

  /** The backup codes of every other account, and none of `o`'s, in their order. */
  ghost predicate BackupsOfOthers(before: seq<BackupRow>, after: seq<BackupRow>, o: Owner) {
    exists p :: Picks(before, after, p) && OthersAt(before, o, p)
  }

  ghost predicate OthersAt(rows: seq<BackupRow>, o: Owner, p: seq<nat>) {
    forall i: nat :: i in p <==> i < |rows| && Owner(rows[i].tenant, rows[i].user) != o
  }

  lemma {:induction false} KeptPositions(rows: seq<Attempt>, cutoff: Time) returns (p: seq<nat>)
    ensures Picks(rows, KeptSince(rows, cutoff), p) && RecentAt(rows, cutoff, p)
  {
    if rows == [] {
      p := [];
    } else {
      var n := |rows| - 1;
      p := KeptPositions(rows[..n], cutoff);
      if rows[n].at >= cutoff {
        p := p + [n];
      }
    }
  }

  lemma KeptSinceIs(before: seq<Attempt>, after: seq<Attempt>, cutoff: Time)
    ensures after == KeptSince(before, cutoff) <==> AttemptsSince(before, after, cutoff)
  {
    var p := KeptPositions(before, cutoff);
    if AttemptsSince(before, after, cutoff) {
      var q :| Picks(before, after, q) && RecentAt(before, cutoff, q);
      SamePicks(before, after, KeptSince(before, cutoff), q, p);
    }
  }

  lemma {:induction false} OtherPositions(rows: seq<BackupRow>, o: Owner) returns (p: seq<nat>)
    ensures Picks(rows, WithoutBackups(rows, o), p) && OthersAt(rows, o, p)
  {
    if rows == [] {
      p := [];
    } else {
      var q := OtherPositions(rows[1..], o);
      var later: seq<nat> := seq(|q|, k requires 0 <= k < |q| => q[k] + 1);
      p := if Owner(rows[0].tenant, rows[0].user) == o then later else [0] + later;
      ShiftedPositions(rows, o, q, later, p);
      ShiftedPicks(rows, WithoutBackups(rows[1..], o), q, later);
      assert WithoutBackups(rows, o) == if Owner(rows[0].tenant, rows[0].user) == o then WithoutBackups(rows[1..], o)
                                        else [rows[0]] + WithoutBackups(rows[1..], o);
    }
  }

  lemma ShiftedPicks(rows: seq<BackupRow>, kept: seq<BackupRow>, q: seq<nat>, later: seq<nat>)
    requires rows != [] && Picks(rows[1..], kept, q)
    requires |later| == |q| && forall k :: 0 <= k < |q| ==> later[k] == q[k] + 1
    ensures Picks(rows, kept, later) && Picks(rows, [rows[0]] + kept, [0] + later)
  {}

  lemma ShiftedPositions(rows: seq<BackupRow>, o: Owner, q: seq<nat>, later: seq<nat>, p: seq<nat>)
    requires rows != [] && OthersAt(rows[1..], o, q)
    requires |later| == |q| && forall k :: 0 <= k < |q| ==> later[k] == q[k] + 1
    requires p == if Owner(rows[0].tenant, rows[0].user) == o then later else [0] + later
    ensures OthersAt(rows, o, p)
  {
    forall i: nat ensures i in p <==> i < |rows| && Owner(rows[i].tenant, rows[i].user) != o {
      if i > 0 {
        assert i in p <==> i in later;
        assert i - 1 in q <==> i in later;
      }
    }
  }

  lemma WithoutBackupsIs(before: seq<BackupRow>, after: seq<BackupRow>, o: Owner)
    ensures after == WithoutBackups(before, o) <==> BackupsOfOthers(before, after, o)
  {
    var p := OtherPositions(before, o);
    if BackupsOfOthers(before, after, o) {
      var q :| Picks(before, after, q) && OthersAt(before, o, q);
      SamePicks(before, after, WithoutBackups(before, o), q, p);
    }
  }

  // ── Whole steps ────────────────────────────────────────────────────────────

  /** One row more, or one replaced: unrevoked, for this account, with this expiry. */
  ghost predicate RefreshStored(before: RefreshTable, after: RefreshTable, h: Digest, o: Owner, expiresAt: Time) {
    && (forall d :: d in after <==> d in before || d == h)
    && (forall d :: d in before && d != h ==> after[d] == before[d])
    && after[h].tenant == o.tenant && after[h].user == o.user
    && after[h].expiresAt == expiresAt && after[h].revokedAt.None?
  }

  lemma WithRefreshIs(before: RefreshTable, after: RefreshTable, o: Owner, mint: Issuance, now: Time, days: int)
    ensures after == WithRefresh(before, Some(o), mint, now, days)
            <==> RefreshStored(before, after, Sha256(mint.refresh), o, now + days * DAY)
  {
    var with := WithRefresh(before, Some(o), mint, now, days);
    if RefreshStored(before, after, Sha256(mint.refresh), o, now + days * DAY) {
      assert after.Keys == with.Keys;
    }
  }

  /** The account has no second factor and no backup code left; every other row is where it was. */
  ghost predicate MfaRemoved(before: Db, after: Db, o: Owner) {
    && after == before.(totp := after.totp, backup := after.backup)
    && (forall a :: a in after.totp <==> a in before.totp && a != o)
    && (forall a :: a in after.totp ==> after.totp[a] == before.totp[a])
    && BackupsOfOthers(before.backup, after.backup, o)
  }

  lemma WithoutMfaIs(before: Db, after: Db, o: Owner)
    ensures after == WithoutMfa(before, o).db <==> MfaRemoved(before, after, o)
  {
    WithoutBackupsIs(before.backup, after.backup, o);
    if MfaRemoved(before, after, o) {
      assert after.totp == before.totp - {o};
    }
  }

  ghost predicate RefreshUnexpired(before: RefreshTable, after: RefreshTable, now: Time) {
    (forall h :: h in after <==> h in before && before[h].expiresAt >= now)
    && (forall h :: h in after ==> after[h] == before[h])
  }

  ghost predicate JtisUnexpired(before: JtiTable, after: JtiTable, now: Time) {
    (forall j :: j in after <==> j in before && before[j] >= now)
    && (forall j :: j in after ==> after[j] == before[j])
  }

  ghost predicate SessionsUnexpired(before: SessionTable, after: SessionTable, now: Time) {
    (forall s :: s in after <==> s in before && before[s].expiresAt >= now)
    && (forall s :: s in after ==> after[s] == before[s])
  }

  ghost predicate BucketsUnexpired(before: Buckets, after: Buckets, now: Time) {
    (forall k :: k in after <==> k in before && before[k].expiresAt >= now)
    && (forall k :: k in after ==> after[k] == before[k])
  }

  /** A refresh token, a revoked id, a session, a bucket stays, as it was, exactly while it has not
      expired; the attempts of the last hour stay in order; nothing else moves. */
  ghost predicate Cleaned(before: Db, after: Db, now: Time) {
    && after == before.(refresh := after.refresh, attempts := after.attempts, jtis := after.jtis,
                        sessions := after.sessions, buckets := after.buckets)
    && RefreshUnexpired(before.refresh, after.refresh, now) && JtisUnexpired(before.jtis, after.jtis, now)
    && SessionsUnexpired(before.sessions, after.sessions, now) && BucketsUnexpired(before.buckets, after.buckets, now)
    && AttemptsSince(before.attempts, after.attempts, now - 3600)
  }

  lemma PurgesAre(before: Db, after: Db, now: Time)
    ensures after.refresh == PurgeRefresh(before.refresh, now) <==> RefreshUnexpired(before.refresh, after.refresh, now)
    ensures after.jtis == PurgeJtis(before.jtis, now) <==> JtisUnexpired(before.jtis, after.jtis, now)
    ensures after.sessions == PurgeSessions(before.sessions, now)
            <==> SessionsUnexpired(before.sessions, after.sessions, now)
    ensures after.buckets == Purge(before.buckets, now) <==> BucketsUnexpired(before.buckets, after.buckets, now)
  {}

  lemma CleanupIs(before: Db, after: Db, now: Time)
    ensures after == CleanupSpec(before, now).db <==> Cleaned(before, after, now)
  {
    KeptSinceIs(before.attempts, after.attempts, now - ATTEMPT_RETENTION);
    PurgesAre(before, after, now);
  }
}
