/**
 The worker loop of internal/api/background_jobs.go: how it rotates over the queues, and
 how long it waits between attempts.
 */
module Worker {
  import opened Common

  /** What one claim on one queue brings back. */
  datatype Answer = GotJob | NoJob | ClaimFailed

  /** Steps forward, around the ring of n queues, from one queue to another. */
  function Distance(from: nat, to: nat, n: nat): nat
    requires from < n && to < n
  {
    if to >= from then to - from else to + n - from
  }

  /** One pass over the queues: the nearest queue with a job is served and the pointer moves just past it. */
  predicate IsPass(pointer: nat, answers: seq<Answer>, served: Option<nat>, pointer': nat)
    requires pointer < |answers|
  {
    match served
    case None => pointer' == pointer && forall q | 0 <= q < |answers| :: answers[q] != GotJob
    case Some(q) =>
      && q < |answers| && answers[q] == GotJob
      && pointer' == (q + 1) % |answers|
      && forall p | 0 <= p < |answers| && answers[p] == GotJob ::
           Distance(pointer, q, |answers|) <= Distance(pointer, p, |answers|)
  }

  lemma WrapOnce(a: nat, n: nat)
    requires a < 2 * n
    ensures a % n == if a < n then a else a - n
  {
    var q := a / n;
    assert a == n * q + a % n;
    assert q >= 2 ==> n * q >= n * 2;
  }

  lemma RingOffset(pointer: nat, offset: nat, n: nat)
    requires pointer < n && offset < n
    ensures Distance(pointer, (pointer + offset) % n, n) == offset
    ensures (pointer + offset + 1) % n == ((pointer + offset) % n + 1) % n
  {
    WrapOnce(pointer + offset, n);
    WrapOnce(pointer + offset + 1, n);
    WrapOnce((pointer + offset) % n + 1, n);
  }

  method Pass(pointer: nat, answers: seq<Answer>) returns (served: Option<nat>, pointer': nat)
    requires pointer < |answers|
    ensures IsPass(pointer, answers, served, pointer')
    ensures pointer' < |answers|
  {
    var n := |answers|;
    pointer' := pointer;
    served := None;
    var offset := 0;
    while offset < n
      invariant 0 <= offset <= n && pointer' == pointer && served.None?
      invariant forall q | 0 <= q < n && Distance(pointer, q, n) < offset :: answers[q] != GotJob
    {
      RingOffset(pointer, offset, n);
      var q := (pointer + offset) % n;
      if answers[q] == GotJob {
        served := Some(q);
        pointer' := (pointer + offset + 1) % n;
        return;
      }
      offset := offset + 1;
    }
  }

  /** A pass that serves another queue brings the pointer strictly nearer to a queue that had a job. */
  lemma PassedOverComesNearer(pointer: nat, answers: seq<Answer>, served: Option<nat>, pointer': nat, q: nat)
    requires pointer < |answers| && q < |answers| && answers[q] == GotJob
    requires IsPass(pointer, answers, served, pointer') && served != Some(q)
    ensures pointer' < |answers|
    ensures Distance(pointer', q, |answers|) < Distance(pointer, q, |answers|)
  {
    var n, p := |answers|, served.value;
    assert Distance(pointer, p, n) <= Distance(pointer, q, n);
    WrapOnce(p + 1, n);
  }

  ghost predicate IsRotation(pointers: seq<nat>, answers: seq<seq<Answer>>, served: seq<Option<nat>>, n: nat) {
    && |pointers| == |answers| + 1 && |served| == |answers|
    && (forall i | 0 <= i < |pointers| :: pointers[i] < n)
    && (forall i | 0 <= i < |answers| :: |answers[i]| == n)
    && (forall i | 0 <= i < |answers| :: IsPass(pointers[i], answers[i], served[i], pointers[i + 1]))
  }

  /**
   Fairness: a queue that has a job in every pass is served within n passes, every one of
   which claims some job; the passes may find anything, even errors, on the other queues.
   */
  lemma {:induction false} ServedWithinOneRing(pointers: seq<nat>, answers: seq<seq<Answer>>, served: seq<Option<nat>>,
      n: nat, q: nat)
    requires IsRotation(pointers, answers, served, n) && q < n
    requires forall i | 0 <= i < |answers| :: answers[i][q] == GotJob
    requires |answers| > Distance(pointers[0], q, n)
    ensures forall i | 0 <= i < |answers| :: served[i].Some?
    ensures exists i | 0 <= i <= Distance(pointers[0], q, n) :: i < n && served[i] == Some(q)
    decreases Distance(pointers[0], q, n)
  {
    forall i | 0 <= i < |answers| ensures served[i].Some? {
      assert IsPass(pointers[i], answers[i], served[i], pointers[i + 1]) && answers[i][q] == GotJob;
    }
    if served[0] == Some(q) {
      return;
    }
    PassedOverComesNearer(pointers[0], answers[0], served[0], pointers[1], q);
    ServedWithinOneRing(pointers[1..], answers[1..], served[1..], n, q);
    var i :| 0 <= i <= Distance(pointers[1], q, n) && served[1..][i] == Some(q);
    assert served[i + 1] == Some(q);
  }

  // ----- the wait before a retry -----

  const BASE_SECONDS: seq<nat> := [1, 2, 4, 8, 16, 32, 64, 128, 256]

  /** The delay without jitter: one second doubled for each attempt after the first, up to the ninth. */
  function BaseDelay(attempt: int): Duration {
    BASE_SECONDS[if attempt < 1 then 0 else if attempt > 9 then 8 else attempt - 1] * SECOND
  }

  function PowerOfTwo(n: nat): nat {
    if n == 0 then 1 else 2 * PowerOfTwo(n - 1)
  }

  const MAX_INT64: int := 0x7fff_ffff_ffff_ffff

  /** `random` is the byte read for jitter, or nothing when reading it failed. */
  method RetryDelay(attempt: int, random: Option<nat>) returns (delay: Duration)
    requires random.Some? ==> random.value < 256
    ensures BaseDelay(attempt) <= delay <= BaseDelay(attempt) + BaseDelay(attempt) / 4 <= 320 * SECOND
    ensures random.None? ==> delay == BaseDelay(attempt)
    ensures random == Some(255) ==> delay == BaseDelay(attempt) + BaseDelay(attempt) / 4
    ensures random == Some(0) ==> delay == BaseDelay(attempt)
  {
    var clamped := attempt;
    if clamped < 1 {
      clamped := 1;
    }
    if clamped > 9 {
      clamped := 9;
    }
    var base := SECOND * PowerOfTwo(clamped - 1);
    PowersUpToEight();
    assert base == BaseDelay(attempt);
    if base > 5 * MINUTE {
      base := 5 * MINUTE;
    }
    if random.None? {
      return base;
    }
    DelayFitsInt64(attempt, random.value);
    delay := base + base / 4 * random.value / 255;
  }

  /** No intermediate value of the jitter arithmetic leaves the range of a 64-bit integer. */
  lemma DelayFitsInt64(attempt: int, random: nat)
    requires random < 256
    ensures var base := BaseDelay(attempt);
            && 0 <= base / 4 * random <= base / 4 * 255 <= MAX_INT64
            && base + base / 4 * random / 255 <= 320 * SECOND
  {
    Monotone(BaseDelay(attempt) / 4, random, 255);
  }

  lemma Monotone(a: nat, x: nat, y: nat)
    requires x <= y
    ensures 0 <= a * x <= a * y
  {
  }

  lemma PowersUpToEight()
    ensures PowerOfTwo(0) == 1 && PowerOfTwo(1) == 2 && PowerOfTwo(2) == 4 && PowerOfTwo(3) == 8
    ensures PowerOfTwo(4) == 16 && PowerOfTwo(5) == 32 && PowerOfTwo(6) == 64 && PowerOfTwo(7) == 128
    ensures PowerOfTwo(8) == 256
  {
    assert PowerOfTwo(2) == 4;
    assert PowerOfTwo(4) == 16;
    assert PowerOfTwo(6) == 64;
  }

  predicate PossibleDelay(attempt: int, delay: Duration) {
    BaseDelay(attempt) <= delay <= BaseDelay(attempt) + BaseDelay(attempt) / 4
  }

  /** Up to the ninth attempt every possible delay is shorter than every possible delay of the next attempt. */
  lemma DelaysStrictlyGrow(attempt: int, d: Duration, d': Duration)
    requires 1 <= attempt < 9 && PossibleDelay(attempt, d) && PossibleDelay(attempt + 1, d')
    ensures d < d'
  {
  }

  function Total(delays: seq<Duration>): Duration {
    if delays == [] then 0 else Total(delays[..|delays| - 1]) + delays[|delays| - 1]
  }

  /** The sum of the largest delays of attempts 1 to n, in closed form. */
  function LongestWait(n: nat): Duration {
    if n <= 9 then (PowerOfTwo(n) - 1) * SECOND * 5 / 4 else 511 * SECOND * 5 / 4 + (n - 9) * 320 * SECOND
  }

  lemma LongestWaitGrows(n: nat)
    requires n >= 1
    ensures LongestWait(n - 1) + BaseDelay(n) + BaseDelay(n) / 4 == LongestWait(n)
  {
    PowersUpToEight();
    assert PowerOfTwo(9) == 512;
  }

  /** However the jitter falls, n retries wait at most LongestWait(n) in all. */
  lemma {:induction false} TotalWaitBounded(delays: seq<Duration>)
    requires forall i | 0 <= i < |delays| :: PossibleDelay(i + 1, delays[i])
    ensures Total(delays) <= LongestWait(|delays|)
  {
    if delays != [] {
      var n := |delays|;
      TotalWaitBounded(delays[..n - 1]);
      LongestWaitGrows(n);
    } else {
      PowersUpToEight();
    }
  }
}
