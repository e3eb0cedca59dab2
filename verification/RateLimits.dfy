/** The fixed-window rate limiter of internal/store/rate_limits.go. */
module RateLimits {
  import opened Common
  import Expiry

  datatype Bucket = Bucket(count: nat, startedAt: Instant, expiresAt: Instant)

  datatype Key = Key(policy: string, keyHash: seq<nat>)

  type Buckets = map<Key, Bucket>

  datatype Outcome = Outcome(allowed: bool, limit: int, remaining: int, retryAfter: Duration, resetAt: Instant)

  datatype Failure = InvalidPolicy | InvalidKey | InvalidAllowance | InvalidWindow | InvalidResetKey | InvalidBatch

  predicate ValidPolicy(policy: string) {
    && 1 <= |policy| <= 128
    && 'a' <= policy[0] <= 'z'
    && forall i | 1 <= i < |policy| ::
         'a' <= policy[i] <= 'z' || '0' <= policy[i] <= '9' || policy[i] == '_' || policy[i] == '.'
  }

  function WindowLength(window: Duration): Duration {
    DurationSeconds(window) * SECOND
  }

  /** One upsert: a missing or expired bucket starts a new window, otherwise the capped count grows. */
  function TakeBucket(b: Option<Bucket>, limit: nat, length: Duration, at: Instant): Bucket {
    if b.None? || b.value.expiresAt <= at then Bucket(1, at, at + length)
    else b.value.(count := if b.value.count + 1 < limit + 1 then b.value.count + 1 else limit + 1)
  }

  function OutcomeOf(b: Bucket, limit: nat, at: Instant): Outcome {
    var allowed := b.count <= limit;
    Outcome(allowed, limit, if limit < b.count then 0 else limit - b.count,
            if allowed || b.expiresAt < at then 0 else b.expiresAt - at, b.expiresAt)
  }

  function Find(t: Buckets, k: Key): Option<Bucket> {
    if k in t then Some(t[k]) else None
  }

  class RateLimiter {
    var buckets: Buckets

    constructor ()
      ensures buckets == map[]
    {
      buckets := map[];
    }

    method Take(policy: string, keyHash: seq<nat>, limit: int, window: Duration, at: Instant)
      returns (r: Result<Outcome, Failure>)
      modifies this
      ensures r == if !ValidPolicy(policy) then Err(InvalidPolicy)
                   else if |keyHash| != 32 then Err(InvalidKey)
                   else if !(1 <= limit <= 1_000_000) then Err(InvalidAllowance)
                   else if !(SECOND <= window <= 7 * DAY) then Err(InvalidWindow)
                   else Ok(OutcomeOf(TakeBucket(Find(old(buckets), Key(policy, keyHash)), limit,
                       WindowLength(window), at),
                                     limit, at))
      ensures r.Err? ==> buckets == old(buckets)
      ensures r.Ok? ==>
                var k := Key(policy, keyHash);
                buckets == old(buckets)[k := TakeBucket(Find(old(buckets), k), limit, WindowLength(window), at)]
    {
      if !ValidPolicy(policy) {
        return Err(InvalidPolicy);
      }
      if |keyHash| != 32 {
        return Err(InvalidKey);
      }
      if limit < 1 || limit > 1_000_000 {
        return Err(InvalidAllowance);
      }
      if window < SECOND || window > 7 * DAY {
        return Err(InvalidWindow);
      }
      var k := Key(policy, keyHash);
      if k in buckets {
        var b := buckets[k];
        if b.expiresAt <= at {
          b := Bucket(1, at, at + DurationSeconds(window) * SECOND);
        } else {
          b := b.(count := if b.count + 1 < limit + 1 then b.count + 1 else limit + 1);
        }
        buckets := buckets[k := b];
      } else {
        buckets := buckets[k := Bucket(1, at, at + DurationSeconds(window) * SECOND)];
      }
      var count, resetAt := buckets[k].count, buckets[k].expiresAt;
      var remaining := limit - count;
      if remaining < 0 {
        remaining := 0;
      }
      var retryAfter := 0;
      if count > limit {
        retryAfter := resetAt - at;
        if retryAfter < 0 {
          retryAfter := 0;
        }
      }
      r := Ok(Outcome(count <= limit, limit, remaining, retryAfter, resetAt));
    }

    method Reset(policy: string, keyHash: seq<nat>) returns (r: Result<(), Failure>)
      modifies this
      ensures r == if ValidPolicy(policy) && |keyHash| == 32 then Ok(()) else Err(InvalidResetKey)
      ensures buckets == if r.Ok? then old(buckets) - {Key(policy, keyHash)} else old(buckets)
    {
      if !ValidPolicy(policy) || |keyHash| != 32 {
        return Err(InvalidResetKey);
      }
      buckets := buckets - {Key(policy, keyHash)};
      r := Ok(());
    }

    method DeleteExpired(limit: int, at: Instant) returns (r: Result<nat, Failure>, removed: set<Key>)
      modifies this
      ensures !(1 <= limit <= 10_000) ==> r == Err(InvalidBatch) && removed == {}
      ensures 1 <= limit <= 10_000 ==>
                r == Ok(|removed|) && Expiry.IsBatch(map k | k in old(buckets) :: old(buckets)[k].expiresAt, limit,
                    at, removed)
      ensures buckets == old(buckets) - removed
    {
      if limit < 1 || limit > 10_000 {
        return Err(InvalidBatch), {};
      }
      removed := Expiry.EarliestBatch(map k | k in buckets :: buckets[k].expiresAt, limit, at);
      buckets := buckets - removed;
      r := Ok(|removed|);
    }
  }

  // ----- runs of one key, with a fixed limit and window -----

  /** What may happen to one bucket: a take, or a cleanup that removes it if it has expired. */
  datatype Event = Take(at: Instant) | Cleanup(at: Instant)

  predicate InOrder(es: seq<Event>) {
    forall i, j | 0 <= i <= j < |es| :: es[i].at <= es[j].at
  }

  /** The bucket after the first n events. */
  function After(es: seq<Event>, limit: nat, length: Duration): (b: Option<Bucket>)
    ensures b.Some? ==> es != [] && b.value.expiresAt == b.value.startedAt + length && 1 <= b.value.count <= limit + 1
  {
    if es == [] then None
    else
      var before, e := After(es[..|es| - 1], limit, length), es[|es| - 1];
      match e
      case Take(at) => Some(TakeBucket(before, limit, length, at))
      case Cleanup(at) => if before.Some? && before.value.expiresAt <= at then None else before
  }

  /** The bucket a take at the end of `es` leaves, and whether it is allowed. */
  function LastTake(es: seq<Event>, limit: nat, length: Duration): Bucket
    requires es != [] && es[|es| - 1].Take?
  {
    TakeBucket(After(es[..|es| - 1], limit, length), limit, length, es[|es| - 1].at)
  }

  // ----- the reference limiter: it keeps every take -----

  function Takes(es: seq<Event>): seq<Instant> {
    if es == [] then []
    else
      var before, e := Takes(es[..|es| - 1]), es[|es| - 1];
      if e.Take? then before + [e.at] else before
  }

  /** The start of the window the last logged take falls in: greedy windows of fixed length. */
  function WindowStart(log: seq<Instant>, length: Duration): Instant
    requires log != []
  {
    var at := log[|log| - 1];
    if |log| == 1 then at
    else
      var start := WindowStart(log[..|log| - 1], length);
      if start + length <= at then at else start
  }

  /** How many logged takes lie at or after an instant. */
  function CountFrom(log: seq<Instant>, start: Instant): nat {
    if log == [] then 0
    else CountFrom(log[..|log| - 1], start) + if log[|log| - 1] >= start then 1 else 0
  }

  function InWindow(log: seq<Instant>, length: Duration): nat
    requires log != []
  {
    CountFrom(log, WindowStart(log, length))
  }

  predicate Ascending(log: seq<Instant>) {
    forall i, j | 0 <= i <= j < |log| :: log[i] <= log[j]
  }

  function Min(a: nat, b: nat): nat {
    if a < b then a else b
  }
}
