/** The rate limiter inside whole runs: the buckets abbreviate the history of requests exactly. */
module RateLimitedRuns {
  import opened Prelude
  import opened RateLimit
  import opened Schema
  import H = Handlers
  import opened Runs

  type Run = H.Run

  function EntryOf(e: H.Event): Option<Entry> {
    match e.request
    case RateCheck(key) => Some(Request(key, e.now))
    case Cleanup => Some(PurgeAt(e.now))
    case _ => None
  }

  function Append(log: seq<Entry>, e: Option<Entry>): seq<Entry> {
    if e.None? then log else log + [e.value]
  }

  /** What the limiter saw of the first `i` events. */
  function LogOf(run: Run, i: nat): seq<Entry>
    requires i <= |run.events|
  {
    if i == 0 then [] else Append(LogOf(run, i - 1), EntryOf(run.events[i - 1]))
  }

  lemma LastEntry(log: seq<Entry>, e: Entry, key: string, w: int)
    ensures Table(log + [e]) == if e.Request? then Upsert(Table(log), e.key, e.now) else Purge(Table(log), e.now)
    ensures RateLimit.Requests(log + [e], key, w)
            == RateLimit.Requests(log, key, w) + if InWindow(e, key, w) then 1 else 0
    ensures Admitted(log + [e], key, w)
            == Admitted(log, key, w) + if InWindow(e, key, w) && Admits(Table(log), e.key, e.now) then 1 else 0
  {
    assert (log + [e])[..|log|] == log;
  }

  lemma LaterEntry(log: seq<Entry>, e: Option<Entry>, now: Time)
    requires BoundedSkew(log) && (forall p :: 0 <= p < |log| ==> log[p].now <= now) && (e.Some? ==> e.value.now == now)
    ensures BoundedSkew(Append(log, e)) && forall p :: 0 <= p < |Append(log, e)| ==> Append(log, e)[p].now <= now
  {}

  lemma BucketsFollowLog(run: Run, i: nat, b: Buckets)
    requires run.Valid() && i < |run.events| && run.states[i].buckets == b
    ensures var e := EntryOf(run.events[i]);
            run.states[i + 1].buckets
            == if e.None? then b
               else if e.value.Request? then Upsert(b, e.value.key, e.value.now) else Purge(b, e.value.now)
  {
    match run.events[i].request
    case RateCheck(_) => RateCheckAt(run, i);
    case Cleanup => CleanupAt(run, i);
    case _ => Obeys(run, i);
  }

  lemma BucketsKeepFollowing(run: Run, i: nat, next: nat)
    requires run.Valid() && i < |run.events| && next == i + 1 && run.states[i].buckets == Table(LogOf(run, i))
    ensures run.states[next].buckets == Table(LogOf(run, next))
  {
    var e := EntryOf(run.events[i]);
    BucketsFollowLog(run, i, Table(LogOf(run, i)));
    if e.Some? {
      LastEntry(LogOf(run, i), e.value, "", 0);
    }
  }

  lemma {:induction false} BucketsAreTheLog(run: Run, i: nat)
    requires run.Valid() && run.states[0].buckets == map[] && i <= |run.events|
    ensures run.states[i].buckets == Table(LogOf(run, i))
  {
    if i > 0 {
      BucketsAreTheLog(run, i - 1);
      BucketsKeepFollowing(run, i - 1, i);
    }
  }

  predicate Asks(run: Run, i: nat, key: string, w: int) {
    i < |run.events| && run.events[i].request == H.RateCheck(key) && WindowOf(run.events[i].now) == w
  }

  /** Requests for a key in a window among the first `i` events, and how many of them were admitted. */
  function Asked(run: Run, i: nat, key: string, w: int): nat {
    if i == 0 then 0 else Asked(run, i - 1, key, w) + if Asks(run, i - 1, key, w) then 1 else 0
  }

  function Served(run: Run, i: nat, key: string, w: int): nat
    requires run.Shaped() && i <= |run.events|
  {
    if i == 0 then 0
    else Served(run, i - 1, key, w) + if Asks(run, i - 1, key, w) && run.replies[i - 1] == H.Done then 1 else 0
  }

  lemma CountsMove(run: Run, i: nat, key: string, w: int)
    requires run.Valid() && run.states[0].buckets == map[] && i < |run.events|
    ensures RateLimit.Requests(LogOf(run, i + 1), key, w)
            == RateLimit.Requests(LogOf(run, i), key, w) + if Asks(run, i, key, w) then 1 else 0
    ensures Admitted(LogOf(run, i + 1), key, w)
            == Admitted(LogOf(run, i), key, w) + if Asks(run, i, key, w) && run.replies[i] == H.Done then 1 else 0
  {
    var e := EntryOf(run.events[i]);
    if e.Some? {
      LastEntry(LogOf(run, i), e.value, key, w);
    }
    if run.events[i].request.RateCheck? {
      RateCheckAt(run, i);
      BucketsAreTheLog(run, i);
    }
  }

  lemma {:induction false} CountsAgree(run: Run, i: nat, key: string, w: int)
    requires run.Valid() && run.states[0].buckets == map[] && i <= |run.events|
    ensures Asked(run, i, key, w) == RateLimit.Requests(LogOf(run, i), key, w)
    ensures Served(run, i, key, w) == Admitted(LogOf(run, i), key, w)
  {
    if i > 0 {
      CountsAgree(run, i - 1, key, w);
      CountsMove(run, i - 1, key, w);
    }
  }

  lemma {:induction false} LogIsInOrder(run: Run, i: nat)
    requires run.Monotone() && i <= |run.events|
    ensures BoundedSkew(LogOf(run, i))
    ensures i > 0 ==> forall p :: 0 <= p < |LogOf(run, i)| ==> LogOf(run, i)[p].now <= run.events[i - 1].now
  {
    if i > 0 {
      LogIsInOrder(run, i - 1);
      if i > 1 {
        assert run.events[i - 2].now <= run.events[i - 1].now;
      }
      LaterEntry(LogOf(run, i - 1), EntryOf(run.events[i - 1]), run.events[i - 1].now);
    }
  }

  /** In every run with a clock that never runs back, whatever else is served and whenever cleanup
      falls, each key and window admits exactly its first 20 requests. */
  lemma FirstTwentyAreServed(run: Run, i: nat, key: string, w: int)
    requires run.Valid() && run.Monotone() && run.states[0].buckets == map[] && i <= |run.events|
    ensures Served(run, i, key, w)
            == if Asked(run, i, key, w) <= MAX_REQUESTS then Asked(run, i, key, w) else MAX_REQUESTS
  {
    CountsAgree(run, i, key, w);
    LogIsInOrder(run, i);
    AdmitsFirstTwenty(LogOf(run, i), key, w);
  }

  lemma NothingIsPurgedEarly(run: Run, i: nat, w: int)
    requires run.Monotone() && i < |run.events| && WindowOf(run.events[i].now) == w
    ensures NoPurgePast(LogOf(run, i), (w + 2) * WINDOW_SECS)
  {
    LogIsInOrder(run, i);
    if i > 0 {
      assert run.events[i - 1].now <= run.events[i].now;
    }
  }

  /** And what is answered to each: the first 20 pass, the others are too many, and past the column's range it is an
      error. */
  lemma RateAnswersExactly(run: Run, i: nat)
    requires run.Valid() && run.Monotone() && run.states[0].buckets == map[]
    requires i < |run.events| && run.events[i].request.RateCheck?
    ensures var before := Asked(run, i, run.events[i].request.key, WindowOf(run.events[i].now));
            run.replies[i] == if before < 20 then H.Done
                              else if before < 0x7FFF_FFFF then H.Refused(H.TooManyRequests) else H.Refused(H.Internal)
  {
    var key, w := run.events[i].request.key, WindowOf(run.events[i].now);
    RateCheckAt(run, i);
    BucketsAreTheLog(run, i);
    CountsAgree(run, i, key, w);
    NothingIsPurgedEarly(run, i, w);
    BucketCountsLog(LogOf(run, i), key, w);
  }
}
