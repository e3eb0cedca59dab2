/**
 How far the stamps of case updates may be from the database's clock at their commits, because of clocks that differ or
 of the delay up to the commit, and exactly when a closed case is kept for its full 365 days.
 */
module RetentionClocks {
  import opened Common
  import opened Jobs
  import opened SupportCases
  import opened Retention
  import opened RetentionProofs
  import opened RetentionRuns

  /** Step i of the run removes the case. */
  predicate Removes(ss: seq<State>, i: nat, c: Uid)
    requires i + 1 < |ss|
  {
    c in ss[i].cases && c !in ss[i + 1].cases
  }

  /** Step k closes a case that was not closed. */
  predicate ClosesAfresh(ss: seq<State>, es: seq<Event>, k: nat, c: Uid)
    requires k < |es| < |ss|
  {
    Closes(ss[k], es[k], c) && !CaseClosed(ss[k], c)
  }

  predicate ClosedThroughout(ss: seq<State>, i: nat, j: nat, c: Uid)
    requires i <= j < |ss|
  {
    forall n | i <= n <= j :: CaseClosed(ss[n], c)
  }

  /** Step k closes the case, and step i removes it before it is ever reopened. */
  predicate RemovedInTurn(ss: seq<State>, es: seq<Event>, k: nat, i: nat, c: Uid)
    requires k < i < |es| < |ss|
  {
    ClosesAfresh(ss, es, k, c) && ClosedThroughout(ss, k + 1, i, c) && Removes(ss, i, c)
  }

  lemma {:induction false} RetentionStays(ss: seq<State>, es: seq<Event>, skew: nat, k: nat, i: nat, c: Uid)
    requires IsRun(ss, es, skew) && k < i < |ss| && ClosesAfresh(ss, es, k, c) && ClosedThroughout(ss, k + 1, i, c)
    ensures ss[i].cases[c].retentionUntil == Some(es[k].appNow + RETENTION)
  {
    assert Next(ss[i - 1], es[i - 1], ss[i], skew);
    if k + 1 < i {
      RetentionStays(ss, es, skew, k, i - 1, c);
      assert CaseClosed(ss[i - 1], c) && CaseClosed(ss[i], c);
    }
  }

  /** A case is removed no earlier than 365 days after the stamp of the update that closed it. */
  lemma NoEarlyRemoval(ss: seq<State>, es: seq<Event>, skew: nat, k: nat, i: nat, c: Uid)
    requires IsRun(ss, es, skew) && k < i < |es| && RemovedInTurn(ss, es, k, i, c)
    ensures es[k].appNow + RETENTION <= es[i].at
  {
    RetentionStays(ss, es, skew, k, i, c);
    assert Next(ss[i], es[i], ss[i + 1], skew);
    assert es[i].HandlePurge? && PurgeDeletes(ss[i].cases, c, es[i].at);
  }

  // ----- an early removal, whenever the closing server's clock was behind -----

  lemma {:induction false} FreshAbove(taken: set<Uid>) returns (u: Uid)
    ensures u !in taken && forall t | t in taken :: t < u
  {
    u := 0;
    if taken != {} {
      var t :| t in taken;
      var v := FreshAbove(taken - {t});
      assert forall x | x in taken :: x == t || x in taken - {t};
      u := if v > t then v else t + 1;
    }
  }

  lemma Extend(ss: seq<State>, es: seq<Event>, skew: nat, e: Event, s': State)
    requires IsRun(ss, es, skew) && Next(ss[|es|], e, s', skew)
    ensures IsRun(ss + [s'], es + [e], skew)
  {
    hide Next;
    var ss', es' := ss + [s'], es + [e];
    forall i | 0 <= i < |es'| ensures Next(ss'[i], es'[i], ss'[i + 1], skew) {
      if i < |es| {
        assert Next(ss[i], es[i], ss[i + 1], skew);
      }
    }
  }

  /** Right after it is closed, the case has a purge job that waits for its retention date with all attempts left. */
  lemma ArmedAfterClosing(s: State, e: Event, s': State, skew: nat, c: Uid)
    requires Inv(s) && Inv(s') && Next(s, e, s', skew) && Closes(s, e, c) && !CaseClosed(s, c)
    ensures CaseClosed(s', c) && s'.cases[c].retentionUntil == Some(e.appNow + RETENTION)
    ensures e.target in s'.jobs
    ensures var j := s'.jobs[e.target];
            && j.queue == RETENTION_QUEUE && j.work == PurgeCase(c) && j.status == Pending
            && j.attempts < j.maxAttempts && j.availableAt == e.appNow + RETENTION
  {
    hide FlightsOk, PurgesOk, DecisionsOk, UidsOk;
    assert RowOk(s'.jobs[e.target]) && WorkMatchesKey(s'.jobs[e.target]);
  }

  /** Some worker claims the job at an instant from which it is available, and purges the case. */
  lemma PurgeAt(ss: seq<State>, es: seq<Event>, skew: nat, c: Uid, u: Uid, at: Instant)
    returns (ss': seq<State>, es': seq<Event>)
    requires IsRun(ss, es, skew) && ss[|es|].now <= at
    requires CaseClosed(ss[|es|], c)
    requires ss[|es|].cases[c].retentionUntil.Some? && ss[|es|].cases[c].retentionUntil.value <= at
    requires u in ss[|es|].jobs
    requires var j := ss[|es|].jobs[u];
             && j.queue == RETENTION_QUEUE && j.work == PurgeCase(c) && j.status == Pending
             && j.attempts < j.maxAttempts && j.availableAt <= at
    ensures IsRun(ss', es', skew) && |es'| == |es| + 2 && ss <= ss' && es <= es'
    ensures CaseClosed(ss'[|es| + 1], c) && Removes(ss', |es| + 1, c) && es'[|es| + 1].at == at
  {
    var s := ss[|es|];
    var worker := FreshAbove(s.flights.Keys);
    var lease := FreshAbove(s.used);
    var claim := Event.Claim(worker, RETENTION_QUEUE, 1, lease, s.jobs.Keys - {u}, at, Some(u), at);
    var s1 := ClaimState(s, claim);
    assert Next(s, claim, s1, skew) by {
      assert Candidate(Sweep(s.jobs, RETENTION_QUEUE, at), RETENTION_QUEUE, at, s.jobs.Keys - {u}, u);
    }
    var purge := HandlePurge(worker, false, at);
    var s2 := HandlePurgeState(s1, purge);
    assert Next(s1, purge, s2, skew);
    Extend(ss, es, skew, claim, s1);
    Extend(ss + [s1], es + [claim], skew, purge, s2);
    ss', es' := ss + [s1] + [s2], es + [claim] + [purge];
  }

  /**
   However the run goes on, the case that step k closed stays for 365 days of the database's clock unless it is
   reopened.
   */
  ghost predicate KeptForRetention(ss: seq<State>, es: seq<Event>, skew: nat, k: nat, c: Uid)
    requires k < |es| < |ss|
  {
    forall ss': seq<State>, es': seq<Event>, i: nat ::
      IsRun(ss', es', skew) && ss[..k + 2] <= ss' && es[..k + 1] <= es' && k < i < |es'|
          && RemovedInTurn(ss', es', k, i, c)
      ==> es[k].at + RETENTION <= es'[i].at
  }

  /**
   The exact condition of the 365 days: they are guaranteed exactly when the clock that stamped the closing update was
   not behind the database's at that update.
   */
  lemma FullRetentionIffClockNotBehind(ss: seq<State>, es: seq<Event>, skew: nat, k: nat, c: Uid)
    requires IsRun(ss, es, skew) && k < |es| && ClosesAfresh(ss, es, k, c)
    ensures KeptForRetention(ss, es, skew, k, c) <==> es[k].at <= es[k].appNow
  {
    hide Next, Inv;
    if es[k].at <= es[k].appNow {
      forall ss': seq<State>, es': seq<Event>, i: nat
        | IsRun(ss', es', skew) && ss[..k + 2] <= ss' && es[..k + 1] <= es' && k < i < |es'|
            && RemovedInTurn(ss', es', k, i, c)
        ensures es[k].at + RETENTION <= es'[i].at
      {
        assert es'[k] == es[..k + 1][k];
        NoEarlyRemoval(ss', es', skew, k, i, c);
      }
    } else {
      var ss', es' := EarlyRemoval(ss, es, skew, k, c);
      assert RemovedInTurn(ss', es', k, k + 2, c);
    }
  }

  /** A run that goes on from the closing update and removes the case too early. */
  lemma EarlyRemoval(ss: seq<State>, es: seq<Event>, skew: nat, k: nat, c: Uid)
      returns (ss': seq<State>, es': seq<Event>)
    requires IsRun(ss, es, skew) && k < |es| && ClosesAfresh(ss, es, k, c) && es[k].appNow < es[k].at
    ensures IsRun(ss', es', skew) && ss[..k + 2] <= ss' && es[..k + 1] <= es' && |es'| == k + 3
    ensures RemovedInTurn(ss', es', k, k + 2, c) && es'[k + 2].at < es[k].at + RETENTION
  {
    hide Next, Inv;
    ReachableInv(ss, es, skew, k);
    ReachableInv(ss, es, skew, k + 1);
    assert Next(ss[k], es[k], ss[k + 1], skew);
    ArmedAfterClosing(ss[k], es[k], ss[k + 1], skew, c);
    StepClock(ss[k], es[k], ss[k + 1], skew);
    var soon := es[k].appNow + RETENTION;
    var before, done := ss[..k + 2], es[..k + 1];
    assert IsRun(before, done, skew) by {
      forall n | 0 <= n < |done| ensures Next(before[n], done[n], before[n + 1], skew) {
        assert Next(ss[n], es[n], ss[n + 1], skew);
      }
    }
    ss', es' := PurgeAt(before, done, skew, c, es[k].target, if soon < es[k].at then es[k].at else soon);
    assert ss'[k] == before[k] && ss'[k + 1] == before[k + 1] && es'[k] == done[k];
  }

  // ----- over all runs -----

  /** Every closed case of every run under this skew is kept. */
  ghost predicate AlwaysKept(skew: nat) {
    forall ss: seq<State>, es: seq<Event>, k: nat, c: Uid ::
      IsRun(ss, es, skew) && k < |es| && ClosesAfresh(ss, es, k, c) ==> KeptForRetention(ss, es, skew, k, c)
  }

  /** A case opened and then closed, both at instant `at`, by a server whose clock shows `appNow`. */
  lemma OpenedAndClosed(skew: nat, appNow: Instant, at: Instant) returns (ss: seq<State>, es: seq<Event>)
    requires at - skew <= appNow <= at + skew
    ensures IsRun(ss, es, skew) && |es| == 2 && ClosesAfresh(ss, es, 1, 0) && !CaseClosed(ss[1], 0)
    ensures ss[1].now == at && es[1].appNow == appNow && es[1].at == at
  {
    var open := OpenCase(0, at);
    var close := UpdateCase(0, 1, Some(Closed), false, appNow, 1, at);
    var s0 := Init(at);
    var s1 := Apply(s0, open, skew);
    assert TransitionAllowed(Open, Closed);
    assert Updates(s1, close);
    var s2 := Apply(s1, close, skew);
    ss, es := [s0, s1, s2], [open, close];
    assert Next(s0, open, s1, skew) && Next(s1, close, s2, skew);
  }

  /** The full 365 days are guaranteed over all runs exactly when no stamp is behind its commit or ahead of it. */
  lemma AlwaysKeptIffNoSkew(skew: nat)
    ensures AlwaysKept(skew) <==> skew == 0
  {
    hide Next, KeptForRetention;
    if skew == 0 {
      forall ss: seq<State>, es: seq<Event>, k: nat, c: Uid | IsRun(ss, es, skew) && k < |es|
          && ClosesAfresh(ss, es, k, c)
        ensures KeptForRetention(ss, es, skew, k, c)
      {
        ClosingStampInSkew(ss, es, skew, k, c);
        FullRetentionIffClockNotBehind(ss, es, skew, k, c);
      }
    } else {
      var ss, es := OpenedAndClosed(skew, 0, 1);
      FullRetentionIffClockNotBehind(ss, es, skew, 1, 0);
    }
  }

  lemma ClosingStampInSkew(ss: seq<State>, es: seq<Event>, skew: nat, k: nat, c: Uid)
    requires IsRun(ss, es, skew) && k < |es| && Closes(ss[k], es[k], c)
    ensures es[k].at - skew <= es[k].appNow
  {
    assert Next(ss[k], es[k], ss[k + 1], skew);
  }

  /**
   The bound of PurgeOnlyAfterRetention is exact: for every skew within the retention some run meets it to the
   nanosecond.
   */
  lemma SkewBoundIsReached(skew: nat) returns (ss: seq<State>, es: seq<Event>)
    requires 0 < skew <= RETENTION
    ensures IsRun(ss, es, skew) && |es| == 4 && Removes(ss, 3, 0)
    ensures !ClosedSince(ss, 3, 0, ss[4].now - RETENTION + skew - 1)
  {
    hide Next, Inv;
    ss, es := OpenedAndClosed(skew, 0, skew);
    var prefix := ss;
    ReachableInv(ss, es, skew, 1);
    ReachableInv(ss, es, skew, 2);
    assert Next(ss[1], es[1], ss[2], skew);
    StepClock(ss[1], es[1], ss[2], skew);
    ArmedAfterClosing(ss[1], es[1], ss[2], skew, 0);
    ss, es := PurgeAt(ss, es, skew, 0, es[1].target, RETENTION);
    assert Next(ss[3], es[3], ss[4], skew);
    StepClock(ss[3], es[3], ss[4], skew);
    assert ss[1] == prefix[1];
  }
}
