/** The stored bucket refines a limiter that logs every take, and bounds every interval. */
module RateLimitProofs {
  import opened Common
  import opened RateLimits

  lemma {:induction false} TakesOf(es: seq<Event>)
    requires InOrder(es)
    ensures Ascending(Takes(es))
    ensures Takes(es) != [] ==> es != [] && Takes(es)[|Takes(es)| - 1] <= es[|es| - 1].at
  {
    if es != [] {
      TakesOf(es[..|es| - 1]);
    }
  }

  /** The last logged take lies in its own window, and so no take lies at or after the window's end. */
  lemma {:induction false} LastTakeInWindow(log: seq<Instant>, length: Duration)
    requires log != [] && Ascending(log) && length > 0
    ensures WindowStart(log, length) <= log[|log| - 1] < WindowStart(log, length) + length
  {
    if |log| > 1 {
      LastTakeInWindow(log[..|log| - 1], length);
    }
  }

  lemma {:induction false} NoneFrom(log: seq<Instant>, start: Instant)
    requires forall i | 0 <= i < |log| :: log[i] < start
    ensures CountFrom(log, start) == 0
  {
    if log != [] {
      NoneFrom(log[..|log| - 1], start);
    }
  }

  /** Adding a take either opens a window of its own or joins the current one. */
  lemma AddTake(log: seq<Instant>, at: Instant, length: Duration)
    requires log != [] && Ascending(log) && log[|log| - 1] <= at && length > 0
    ensures var w := WindowStart(log, length);
            && (w + length <= at ==> WindowStart(log + [at], length) == at && InWindow(log + [at], length) == 1)
            && (at < w + length ==>
                  WindowStart(log + [at], length) == w && InWindow(log + [at], length) == InWindow(log, length) + 1)
  {
    assert (log + [at])[..|log|] == log;
    LastTakeInWindow(log, length);
    if WindowStart(log, length) + length <= at {
      NoneFrom(log, at);
    }
  }

  /** The bucket as the log determines it. */
  function BucketOf(log: seq<Instant>, limit: nat, length: Duration): Bucket
    requires log != []
  {
    var w := WindowStart(log, length);
    Bucket(Min(InWindow(log, length), limit + 1), w, w + length)
  }

  /** The bucket is what the log says, or it is gone because the log's last window is over. */
  predicate Matches(b: Option<Bucket>, log: seq<Instant>, limit: nat, length: Duration, now: Instant) {
    if log == [] then b.None?
    else b == Some(BucketOf(log, limit, length)) || (b.None? && WindowStart(log, length) + length <= now)
  }

  lemma TakeMatches(b: Option<Bucket>, log: seq<Instant>, limit: nat, length: Duration, now: Instant, at: Instant)
    requires Ascending(log) && length > 0 && limit >= 1 && now <= at
    requires log != [] ==> log[|log| - 1] <= at
    requires Matches(b, log, limit, length, now)
    ensures TakeBucket(b, limit, length, at) == BucketOf(log + [at], limit, length)
  {
    if log == [] {
      assert log + [at] == [at];
      assert CountFrom([at], at) == CountFrom([], at) + 1;
    } else {
      AddTake(log, at, length);
    }
  }

  lemma {:induction false} BucketRefinesLog(es: seq<Event>, limit: nat, length: Duration)
    requires InOrder(es) && length > 0 && limit >= 1 && es != []
    ensures Matches(After(es, limit, length), Takes(es), limit, length, es[|es| - 1].at)
  {
    var es0, e := es[..|es| - 1], es[|es| - 1];
    TakesOf(es0);
    if es0 != [] {
      BucketRefinesLog(es0, limit, length);
      assert es0[|es0| - 1].at <= e.at;
    }
    if e.Take? {
      TakeMatches(After(es0, limit, length), Takes(es0), limit, length,
                  if es0 == [] then e.at else es0[|es0| - 1].at, e.at);
    }
  }

  /** A take's stored count is min(takes in this window, limit + 1), and it is allowed by that count alone. */
  lemma TakeRefinesLog(es: seq<Event>, limit: nat, length: Duration)
    requires InOrder(es) && length > 0 && limit >= 1 && es != [] && es[|es| - 1].Take?
    ensures Takes(es) != [] && LastTake(es, limit, length) == BucketOf(Takes(es), limit, length)
    ensures OutcomeOf(LastTake(es, limit, length), limit, es[|es| - 1].at).allowed
            <==> InWindow(Takes(es), length) <= limit
  {
    BucketRefinesLog(es, limit, length);
    TakesOf(es);
    LastTakeInWindow(Takes(es), length);
  }

  /** Cleanup is invisible: two histories with the same takes give the same last result, whatever was deleted when. */
  lemma CleanupChangesNoResult(es: seq<Event>, fs: seq<Event>, limit: nat, length: Duration)
    requires InOrder(es) && InOrder(fs) && length > 0 && limit >= 1
    requires es != [] && es[|es| - 1].Take? && fs != [] && fs[|fs| - 1].Take?
    requires Takes(es) == Takes(fs)
    ensures OutcomeOf(LastTake(es, limit, length), limit, es[|es| - 1].at)
            == OutcomeOf(LastTake(fs, limit, length), limit, fs[|fs| - 1].at)
  {
    TakeRefinesLog(es, limit, length);
    TakeRefinesLog(fs, limit, length);
    assert es[|es| - 1].at == Takes(es)[|Takes(es)| - 1];
    assert fs[|fs| - 1].at == Takes(fs)[|Takes(fs)| - 1];
  }

  // ----- the sliding bound -----

  /** Allowed takes whose instant lies in the closed interval from a to b. */
  function AllowedWithin(es: seq<Event>, limit: nat, length: Duration, a: Instant, b: Instant): nat {
    if es == [] then 0
    else
      var e := es[|es| - 1];
      AllowedWithin(es[..|es| - 1], limit, length, a, b)
      + if e.Take? && a <= e.at <= b && LastTake(es, limit, length).count <= limit then 1 else 0
  }

  predicate Bounded(n: nat, log: seq<Instant>, limit: nat, length: Duration, a: Instant, b: Instant) {
    if log == [] || log[|log| - 1] < a then n == 0
    else
      var w, c := WindowStart(log, length), Min(InWindow(log, length), limit);
      n <= if w <= a then c else if w <= b then limit + c else 2 * limit
  }

  lemma BoundedAfterTake(n: nat, log: seq<Instant>, at: Instant, limit: nat, length: Duration, a: Instant, b: Instant)
    requires log != [] && Ascending(log) && log[|log| - 1] <= at && length > 0 && limit >= 1
    requires a <= b <= a + length && Bounded(n, log, limit, length, a, b)
    ensures var counted := a <= at <= b && InWindow(log + [at], length) <= limit;
            Bounded(n + if counted then 1 else 0, log + [at], limit, length, a, b)
  {
    AddTake(log, at, length);
    LastTakeInWindow(log, length);
  }

  lemma {:induction false} BoundedAfter(es: seq<Event>, limit: nat, length: Duration, a: Instant, b: Instant)
    requires InOrder(es) && length > 0 && limit >= 1 && a <= b <= a + length
    ensures Bounded(AllowedWithin(es, limit, length, a, b), Takes(es), limit, length, a, b)
  {
    if es != [] {
      var es0, e := es[..|es| - 1], es[|es| - 1];
      BoundedAfter(es0, limit, length, a, b);
      TakesOf(es0);
      if e.Take? {
        TakeRefinesLog(es, limit, length);
        if Takes(es0) == [] {
          assert [] + [e.at] == [e.at];
          assert CountFrom([e.at], e.at) == CountFrom([], e.at) + 1;
        } else {
          BoundedAfterTake(AllowedWithin(es0, limit, length, a, b), Takes(es0), e.at, limit, length, a, b);
        }
      }
    }
  }

  /** Any interval no longer than the window contains at most twice the limit of allowed takes. */
  lemma AtMostTwiceTheLimit(es: seq<Event>, limit: nat, length: Duration, a: Instant, b: Instant)
    requires InOrder(es) && length > 0 && limit >= 1 && a <= b <= a + length
    ensures AllowedWithin(es, limit, length, a, b) <= 2 * limit
  {
    BoundedAfter(es, limit, length, a, b);
  }

  /** The first k of: limit takes at the opening of a window, then more at the instant it closes. */
  function Bursts(k: nat, limit: nat, length: Duration): seq<Event> {
    seq(k, i => Take(if i < limit then 0 else length))
  }

  lemma {:induction false} BurstsAreAllowed(k: nat, limit: nat, length: Duration)
    requires limit >= 1 && length > 0 && k <= 2 * limit
    ensures AllowedWithin(Bursts(k, limit, length), limit, length, 0, length) == k
    ensures After(Bursts(k, limit, length), limit, length)
            == if k == 0 then None
               else if k <= limit then Some(Bucket(k, 0, length))
               else Some(Bucket(k - limit, length, 2 * length))
  {
    if k > 0 {
      var es := Bursts(k, limit, length);
      assert es[..k - 1] == Bursts(k - 1, limit, length);
      BurstsAreAllowed(k - 1, limit, length);
      var last := TakeBucket(After(es[..k - 1], limit, length), limit, length, es[k - 1].at);
      assert last == if k <= limit then Bucket(k, 0, length) else Bucket(k - limit, length, 2 * length);
      assert LastTake(es, limit, length) == last && After(es, limit, length) == Some(last);
    }
  }

  /** The bound is exact: a burst at each end of a window has twice the limit allowed within one window length. */
  lemma TwiceTheLimitIsReached(limit: nat, length: Duration) returns (es: seq<Event>)
    requires limit >= 1 && length > 0
    ensures InOrder(es) && AllowedWithin(es, limit, length, 0, length) == 2 * limit
  {
    es := Bursts(2 * limit, limit, length);
    BurstsAreAllowed(2 * limit, limit, length);
  }

  // ----- what the caller is told -----

  function OutcomeAt(es: seq<Event>, limit: nat, length: Duration): Outcome
    requires es != [] && es[|es| - 1].Take?
  {
    OutcomeOf(LastTake(es, limit, length), limit, es[|es| - 1].at)
  }

  /** The answer in terms of the log: what is left of the limit, and the end of the window the take falls in. */
  lemma AnswerFollowsTheLog(es: seq<Event>, limit: nat, length: Duration)
    requires InOrder(es) && length > 0 && limit >= 1 && es != [] && es[|es| - 1].Take?
    ensures Takes(es) != []
    ensures var o, used := OutcomeAt(es, limit, length), InWindow(Takes(es), length);
            var end := WindowStart(Takes(es), length) + length;
            && (o.allowed <==> used <= limit) && o.limit == limit
            && o.remaining == (if used <= limit then limit - used else 0)
            && o.resetAt == end && es[|es| - 1].at < end
            && o.retryAfter == if o.allowed then 0 else end - es[|es| - 1].at
  {
    TakeRefinesLog(es, limit, length);
    TakesOf(es);
    LastTakeInWindow(Takes(es), length);
  }

  /**
   A denied caller that tries again is denied before the time it was told to wait has passed, and allowed after it.
   */
  lemma RetryAfterIsExact(es: seq<Event>, limit: nat, length: Duration, at: Instant)
    requires length > 0 && limit >= 1 && es != [] && es[|es| - 1].Take? && InOrder(es + [Take(at)])
    requires !OutcomeAt(es, limit, length).allowed
    ensures OutcomeAt(es, limit, length).retryAfter > 0
    ensures OutcomeAt(es + [Take(at)], limit, length).allowed
            <==> es[|es| - 1].at + OutcomeAt(es, limit, length).retryAfter <= at
  {
    var more := es + [Take(at)];
    assert InOrder(es) by {
      forall i, j | 0 <= i <= j < |es| ensures es[i].at <= es[j].at {
        assert more[i] == es[i] && more[j] == es[j];
      }
    }
    AnswerFollowsTheLog(es, limit, length);
    assert more[..|es|] == es;
  }
}
