/** The fixed-window limiter (services/rate_limit_service.rs): one upsert per request on a
    bucket per (key, window). The log of a run may interleave requests of any number of
    replicas and purges in any order. */
module RateLimit {
  import opened Prelude

  const WINDOW_SECS := 60
  const MAX_REQUESTS := 20

  datatype BucketKey = BucketKey(key: string, window: int)

  datatype Bucket = Bucket(count: nat, expiresAt: int)

  type Buckets = map<BucketKey, Bucket>

  function WindowOf(now: int): int { now / WINDOW_SECS }

  /** The largest value of the count column. */
  const MAX_COUNT := 0x7FFF_FFFF

  /** The increment leaves the column's range: the statement fails. */
  predicate Overflows(b: Buckets, key: string, now: int) {
    var k := BucketKey(key, WindowOf(now));
    k in b && b[k].count >= MAX_COUNT
  }

  /** INSERT ... ON CONFLICT DO UPDATE SET count = count + 1: an existing row keeps its expiry. */
  function Upsert(b: Buckets, key: string, now: int): Buckets {
    var k := BucketKey(key, WindowOf(now));
    if Overflows(b, key, now) then b
    else b[k := if k in b then Bucket(b[k].count + 1, b[k].expiresAt) else Bucket(1, now + 2 * WINDOW_SECS)]
  }

  predicate Admits(b: Buckets, key: string, now: int) {
    Upsert(b, key, now)[BucketKey(key, WindowOf(now))].count <= MAX_REQUESTS
  }

  /** DELETE ... WHERE expires_at < NOW(). */
  function Purge(b: Buckets, now: int): Buckets {
    map k | k in b && b[k].expiresAt >= now :: b[k]
  }

  datatype Entry = Request(key: string, now: int) | PurgeAt(now: int)

  function Table(log: seq<Entry>): Buckets {
    if log == [] then map[]
    else match log[|log| - 1]
      case Request(key, now) => Upsert(Table(log[..|log| - 1]), key, now)
      case PurgeAt(now) => Purge(Table(log[..|log| - 1]), now)
  }

  predicate InWindow(e: Entry, key: string, w: int) {
    e.Request? && e.key == key && WindowOf(e.now) == w
  }

  /** How many entries of the log ask for `key` in window `w`. */
  function Requests(log: seq<Entry>, key: string, w: int): nat {
    if log == [] then 0
    else Requests(log[..|log| - 1], key, w) + if InWindow(log[|log| - 1], key, w) then 1 else 0
  }

  /** The answer the last request of `log` got. */
  predicate AdmittedLast(log: seq<Entry>)
    requires log != []
  {
    var e := log[|log| - 1];
    e.Request? && Admits(Table(log[..|log| - 1]), e.key, e.now)
  }

  function Admitted(log: seq<Entry>, key: string, w: int): nat {
    if log == [] then 0
    else Admitted(log[..|log| - 1], key, w)
         + if InWindow(log[|log| - 1], key, w) && AdmittedLast(log) then 1 else 0
  }

  /** Clocks may disagree, but no request lags an earlier purge by more than a window. */
  predicate BoundedSkew(log: seq<Entry>) {
    forall p, r :: 0 <= p < r < |log| && log[p].PurgeAt? && log[r].Request?
                   ==> log[p].now <= log[r].now + WINDOW_SECS
  }

  /** A bucket outlives its own window by at least one more window. */
  lemma {:induction false} BucketsOutliveWindow(log: seq<Entry>)
    ensures forall k :: k in Table(log)
                        ==> Table(log)[k].expiresAt >= (k.window + 2) * WINDOW_SECS
  {
    if log != [] {
      BucketsOutliveWindow(log[..|log| - 1]);
    }
  }

  ghost predicate NoPurgePast(log: seq<Entry>, limit: int) {
    forall p :: 0 <= p < |log| && log[p].PurgeAt? ==> log[p].now <= limit
  }

  /** While no purge has run more than a window after window `w` closed, its bucket is
      exactly the number of requests logged for it, up to the column's range. */
  lemma {:induction false} BucketCountsLog(log: seq<Entry>, key: string, w: int)
    requires NoPurgePast(log, (w + 2) * WINDOW_SECS)
    ensures var k := BucketKey(key, w);
            (if k in Table(log) then Table(log)[k].count else 0)
            == if Requests(log, key, w) <= MAX_COUNT then Requests(log, key, w) else MAX_COUNT
  {
    if log != [] {
      var init := log[..|log| - 1];
      assert NoPurgePast(init, (w + 2) * WINDOW_SECS) by {
        forall p | 0 <= p < |init| && init[p].PurgeAt? ensures init[p].now <= (w + 2) * WINDOW_SECS {
          assert log[p] == init[p];
        }
      }
      BucketCountsLog(init, key, w);
      BucketsOutliveWindow(init);
      assert log[|log| - 1].PurgeAt? ==> log[|log| - 1].now <= (w + 2) * WINDOW_SECS;
    }
  }

  lemma SkewKeepsBucket(log: seq<Entry>, r: nat)
    requires BoundedSkew(log) && r < |log| && log[r].Request?
    ensures NoPurgePast(log[..r], (WindowOf(log[r].now) + 2) * WINDOW_SECS)
  {
    forall p | 0 <= p < r && log[p].PurgeAt?
      ensures log[p].now <= (WindowOf(log[r].now) + 2) * WINDOW_SECS
    {
      assert log[p].now <= log[r].now + WINDOW_SECS;
    }
  }

  /** Every key and window admits exactly its first 20 requests, whatever the interleaving
      of replicas and however purges fall between them. */
  lemma {:induction false} AdmitsFirstTwenty(log: seq<Entry>, key: string, w: int)
    requires BoundedSkew(log)
    ensures Admitted(log, key, w)
            == if Requests(log, key, w) <= MAX_REQUESTS then Requests(log, key, w) else MAX_REQUESTS
  {
    if log != [] {
      var init := log[..|log| - 1];
      assert BoundedSkew(init) by {
        forall p, r | 0 <= p < r < |init| && init[p].PurgeAt? && init[r].Request?
          ensures init[p].now <= init[r].now + WINDOW_SECS
        {
          assert log[p] == init[p] && log[r] == init[r];
        }
      }
      AdmitsFirstTwenty(init, key, w);
      if InWindow(log[|log| - 1], key, w) {
        SkewKeepsBucket(log, |log| - 1);
        BucketCountsLog(init, key, w);
      }
    }
  }

  /** Requests admitted for `key` with a clock reading in the half-open interval [from, from + 60). */
  function AdmittedWithin(log: seq<Entry>, key: string, from: int): nat {
    if log == [] then 0
    else
      var e := log[|log| - 1];
      AdmittedWithin(log[..|log| - 1], key, from)
      + if e.Request? && e.key == key && from <= e.now < from + WINDOW_SECS && AdmittedLast(log)
        then 1 else 0
  }

  lemma {:induction false} IntervalMeetsTwoWindows(log: seq<Entry>, key: string, from: int)
    ensures AdmittedWithin(log, key, from)
            <= Admitted(log, key, WindowOf(from)) + Admitted(log, key, WindowOf(from) + 1)
  {
    if log != [] {
      IntervalMeetsTwoWindows(log[..|log| - 1], key, from);
    }
  }

  /** A fixed window is not a sliding one: any minute admits at most 40 ... */
  lemma AtMostFortyPerMinute(log: seq<Entry>, key: string, from: int)
    requires BoundedSkew(log)
    ensures AdmittedWithin(log, key, from) <= 2 * MAX_REQUESTS
  {
    IntervalMeetsTwoWindows(log, key, from);
    AdmitsFirstTwenty(log, key, WindowOf(from));
    AdmitsFirstTwenty(log, key, WindowOf(from) + 1);
  }

  /** A burst: `m` requests at `from`, then `n` as the next window opens. */
  function Burst(key: string, from: int, m: nat, n: nat): (log: seq<Entry>)
    ensures forall i :: 0 <= i < |log| ==> log[i].Request?
  {
    if n != 0 then Burst(key, from, m, n - 1) + [Request(key, (WindowOf(from) + 1) * WINDOW_SECS)]
    else if m != 0 then Burst(key, from, m - 1, 0) + [Request(key, from)]
    else []
  }

  lemma {:induction false} BurstRequests(key: string, from: int, m: nat, n: nat)
    requires from % WINDOW_SECS != 0
    ensures var log, w := Burst(key, from, m, n), WindowOf(from);
            && Requests(log, key, w) == m && Requests(log, key, w + 1) == n
            && AdmittedWithin(log, key, from) == Admitted(log, key, w) + Admitted(log, key, w + 1)
  {
    var log := Burst(key, from, m, n);
    if n != 0 {
      BurstRequests(key, from, m, n - 1);
      assert log[..|log| - 1] == Burst(key, from, m, n - 1);
    } else if m != 0 {
      BurstRequests(key, from, m - 1, 0);
      assert log[..|log| - 1] == Burst(key, from, m - 1, 0);
    }
  }

  /** ... and from every instant that is not a window's start, some log reaches 40. */
  lemma FortyAreReached(key: string, from: int)
    requires from % WINDOW_SECS != 0
    ensures BoundedSkew(Burst(key, from, MAX_REQUESTS, MAX_REQUESTS))
    ensures AdmittedWithin(Burst(key, from, MAX_REQUESTS, MAX_REQUESTS), key, from) == 2 * MAX_REQUESTS
  {
    var log := Burst(key, from, MAX_REQUESTS, MAX_REQUESTS);
    BurstRequests(key, from, MAX_REQUESTS, MAX_REQUESTS);
    AdmitsFirstTwenty(log, key, WindowOf(from));
    AdmitsFirstTwenty(log, key, WindowOf(from) + 1);
  }

  lemma {:induction false} AlignedIsOneWindow(log: seq<Entry>, key: string, from: int)
    requires from % WINDOW_SECS == 0
    ensures AdmittedWithin(log, key, from) == Admitted(log, key, WindowOf(from))
  {
    if log != [] {
      AlignedIsOneWindow(log[..|log| - 1], key, from);
    }
  }

  /** The limit of a sliding window, at most 20 requests in the minute from `from` on, holds of every log
      exactly if `from` is the start of a window. */
  lemma SlidingLimitIffAligned(key: string, from: int)
    ensures (forall log :: BoundedSkew(log) ==> AdmittedWithin(log, key, from) <= MAX_REQUESTS)
            <==> from % WINDOW_SECS == 0
  {
    if from % WINDOW_SECS == 0 {
      forall log | BoundedSkew(log) ensures AdmittedWithin(log, key, from) <= MAX_REQUESTS {
        AlignedIsOneWindow(log, key, from);
        AdmitsFirstTwenty(log, key, WindowOf(from));
      }
    } else {
      FortyAreReached(key, from);
    }
  }
}
