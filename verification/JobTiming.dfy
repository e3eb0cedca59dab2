/** When a job is claimed and what a claim or a finish writes, in the columns of the row, over whole runs. */
module JobTiming {
  import opened Common
  import opened Jobs
  import opened SupportCases
  import opened Retention
  import opened RetentionProofs
  import opened RetentionRuns

  // ----- which row a claim takes -----

  /** The columns by which a row of the queue may be claimed at this instant. */
  predicate Claimable(s: State, queue: string, at: Instant, u: Uid) {
    && u in s.jobs && s.jobs[u].queue == queue && s.jobs[u].availableAt <= at
        && s.jobs[u].attempts < s.jobs[u].maxAttempts
    && (|| s.jobs[u].status == Pending
        || (s.jobs[u].status == Running && s.jobs[u].leaseExpiresAt.Some? && s.jobs[u].leaseExpiresAt.value <= at))
  }

  /** A claim takes the claimable unlocked row that became available first; it takes none only when there is none. */
  lemma ClaimTakesTheFirstAvailable(ss: seq<State>, es: seq<Event>, skew: nat, k: nat)
    requires IsRun(ss, es, skew) && k < |es| && es[k].Claim?
    ensures es[k].pick.None? ==>
              forall u | u !in es[k].locked :: !Claimable(ss[k], es[k].queue, es[k].at, u)
    ensures es[k].pick.Some? ==>
              var u := es[k].pick.value;
              && Claimable(ss[k], es[k].queue, es[k].at, u) && u !in es[k].locked
              && forall v | v !in es[k].locked && v != u && Claimable(ss[k], es[k].queue, es[k].at, v) ::
                   var a, b := ss[k].jobs[u], ss[k].jobs[v];
                   || a.availableAt < b.availableAt
                   || (a.availableAt == b.availableAt && a.createdAt < b.createdAt)
                   || (a.availableAt == b.availableAt && a.createdAt == b.createdAt && u < v)
  {
    hide Apply;
    var s, e := ss[k], es[k];
    assert Next(s, e, ss[k + 1], skew);
    var swept := Sweep(s.jobs, e.queue, e.sweepAt);
    forall v | v !in e.locked && Claimable(s, e.queue, e.at, v)
      ensures Candidate(swept, e.queue, e.at, e.locked, v) && swept[v] == s.jobs[v]
    {
    }
  }

  /** No claim ever takes a job before it is available. */
  lemma NeverClaimedBeforeAvailable(ss: seq<State>, es: seq<Event>, skew: nat, k: nat, u: Uid)
    requires IsRun(ss, es, skew) && k < |es| && es[k].Claim? && es[k].pick == Some(u)
    ensures u in ss[k].jobs && ss[k].jobs[u].availableAt <= es[k].at
  {
    ClaimTakesTheFirstAvailable(ss, es, skew, k);
  }

  /** The columns a claim changes in the row it takes, and that only running rows of its queue change besides. */
  lemma ClaimWrites(ss: seq<State>, es: seq<Event>, skew: nat, k: nat, u: Uid)
    requires IsRun(ss, es, skew) && k < |es| && es[k].Claim? && u in ss[k].jobs
    ensures u in ss[k + 1].jobs
    ensures var before, after, e := ss[k].jobs[u], ss[k + 1].jobs[u], es[k];
            && (e.pick == Some(u) ==>
                  && after.status == Running && after.attempts == before.attempts + 1 && after.leaseUid == Some(e.lease)
                  && after.leaseExpiresAt == Some(e.at + e.leaseSeconds * SECOND)
                  && after.availableAt == before.availableAt)
            && (e.pick != Some(u) && after != before ==>
                  && before.queue == e.queue && before.status == Running && before.attempts == before.maxAttempts
                  && before.leaseExpiresAt.Some? && before.leaseExpiresAt.value <= e.sweepAt
                  && after.status == DeadLettered && after.deadLetteredAt == Some(e.sweepAt))
            && (e.pick != Some(u) && before.queue == e.queue && before.status == Running
                && before.attempts == before.maxAttempts
                && before.leaseExpiresAt.Some? && before.leaseExpiresAt.value <= e.sweepAt ==>
                  after.status == DeadLettered)
  {
    hide Apply, Enabled;
    assert Next(ss[k], es[k], ss[k + 1], skew);
    ReachableRow(ss, es, skew, k, u);
    ClaimEffect(ss[k], es[k], ss[k + 1], skew);
  }

  lemma ReachableRow(ss: seq<State>, es: seq<Event>, skew: nat, k: nat, u: Uid)
    requires IsRun(ss, es, skew) && k < |ss| && u in ss[k].jobs
    ensures RowOk(ss[k].jobs[u])
  {
    hide Next;
    ReachableInv(ss, es, skew, k);
  }

  // ----- what a finish writes -----

  /** The worker of this finish still holds the lease of row u. */
  predicate FinishesHeld(s: State, e: Event, u: Uid) {
    && e.Finish? && e.worker in s.flights && s.flights[e.worker].Decided? && s.flights[e.worker].job.uid == u
    && u in s.jobs && s.jobs[u].status == Running && s.jobs[u].leaseUid == Some(s.flights[e.worker].job.leaseUid)
  }

  /** What each verdict makes of the row its worker holds. */
  lemma FinishWrites(ss: seq<State>, es: seq<Event>, skew: nat, k: nat, u: Uid)
    requires IsRun(ss, es, skew) && k < |es| && FinishesHeld(ss[k], es[k], u)
    ensures u in ss[k + 1].jobs
    ensures var before, after, e := ss[k].jobs[u], ss[k + 1].jobs[u], es[k];
            var verdict := ss[k].flights[e.worker].verdict;
            && (verdict == Done ==>
                  after.status == Completed && after.completedAt == Some(e.at) && after.attempts == before.attempts)
            && (verdict.Later? ==>
                  after.status == Pending && after.availableAt == verdict.at && after.attempts == before.attempts - 1)
            && (verdict == Failure && before.attempts < before.maxAttempts ==>
                  after.status == Pending && after.availableAt == e.retryAt && after.attempts == before.attempts)
            && (verdict == Failure && before.attempts == before.maxAttempts ==>
                  after.status == DeadLettered && after.deadLetteredAt == Some(e.at)
                      && after.attempts == before.attempts)
  {
    hide Enabled;
    assert Next(ss[k], es[k], ss[k + 1], skew);
    ReachableRow(ss, es, skew, k, u);
  }

  /** A worker that does not hold the row changes nothing in the table. */
  lemma LostFinishWritesNothing(ss: seq<State>, es: seq<Event>, skew: nat, k: nat)
    requires IsRun(ss, es, skew) && k < |es| && es[k].Finish?
    requires es[k].worker in ss[k].flights && !FinishesHeld(ss[k], es[k], ss[k].flights[es[k].worker].job.uid)
    ensures ss[k + 1].jobs == ss[k].jobs
  {
    assert Next(ss[k], es[k], ss[k + 1], skew);
  }

  /** A replay makes exactly a dead-lettered row claimable again at once, with all its attempts. */
  lemma ReplayWrites(ss: seq<State>, es: seq<Event>, skew: nat, k: nat, u: Uid)
    requires IsRun(ss, es, skew) && k < |es| && es[k].Replay? && es[k].jobUid == u
    ensures u in ss[k].jobs && ss[k].jobs[u].status == DeadLettered ==>
              && Claimable(ss[k + 1], ss[k].jobs[u].queue, es[k].at, u) && ss[k + 1].jobs[u].status == Pending
              && ss[k + 1].jobs[u].attempts == 0 && ss[k + 1].jobs[u].availableAt == es[k].at
    ensures !(u in ss[k].jobs && ss[k].jobs[u].status == DeadLettered) ==> ss[k + 1].jobs == ss[k].jobs
  {
    hide Enabled;
    assert Next(ss[k], es[k], ss[k + 1], skew);
    if u in ss[k].jobs {
      ReachableRow(ss, es, skew, k, u);
    }
  }

  // ----- how long a job waits -----

  /** The job waits for an instant that has not come yet, or is gone. */
  predicate WaitsFor(s: State, u: Uid, until: Instant) {
    u in s.used && (s.now >= until || (u in s.jobs ==> s.jobs[u].status == Pending && s.jobs[u].availableAt == until))
  }

  lemma StepKeepsWaiting(s: State, e: Event, s': State, skew: nat, u: Uid, until: Instant)
    requires UidsOk(s) && CasesOk(s) && Next(s, e, s', skew) && WaitsFor(s, u, until) && !Resets(s, e, u)
    ensures WaitsFor(s', u, until)
    ensures e.Claim? && e.pick == Some(u) ==> until <= e.at
  {
    hide ClaimState, FirstCandidate, HandlePurgeState;
    if e.Claim? {
      ClaimEffect(s, e, s', skew);
    }
    assert Updates(s, e) ==> CaseOk(CaseAfter(s, e)) by {
      if Updates(s, e) {
        UpdateKeepsCaseOk(s.cases[e.caseUid], e.status, e.appNow);
      }
    }
  }

  lemma {:induction false} StaysWaiting(ss: seq<State>, es: seq<Event>, skew: nat, r: nat, k: nat, u: Uid,
      until: Instant)
    requires IsRun(ss, es, skew) && r <= k < |ss| && WaitsFor(ss[r], u, until)
    requires forall n | r <= n < k :: !Resets(ss[n], es[n], u)
    ensures WaitsFor(ss[k], u, until)
  {
    hide Next, Resets, WaitsFor;
    if r < k {
      StaysWaiting(ss, es, skew, r, k - 1, u, until);
      ReachableInv(ss, es, skew, k - 1);
      StepKeepsWaiting(ss[k - 1], es[k - 1], ss[k], skew, u, until);
    }
  }

  /** From a state in which the job waits, no claim takes it before its instant, unless it is reset in between. */
  lemma NotClaimedWhileWaiting(ss: seq<State>, es: seq<Event>, skew: nat, r: nat, k: nat, u: Uid, until: Instant)
    requires IsRun(ss, es, skew) && r <= k < |es| && WaitsFor(ss[r], u, until)
    requires forall n | r <= n < k :: !Resets(ss[n], es[n], u)
    requires es[k].Claim? && es[k].pick == Some(u)
    ensures until <= es[k].at
  {
    hide Next, WaitsFor;
    StaysWaiting(ss, es, skew, r, k, u, until);
    ReachableInv(ss, es, skew, k);
    StepKeepsWaiting(ss[k], es[k], ss[k + 1], skew, u, until);
  }

  lemma RowUidIsUsed(ss: seq<State>, es: seq<Event>, skew: nat, k: nat, u: Uid)
    requires IsRun(ss, es, skew) && k < |ss| && u in ss[k].jobs
    ensures u in ss[k].used
  {
    hide Next;
    ReachableInv(ss, es, skew, k);
  }

  /** The backoff counts: a failed job that is not yet dead-lettered is not claimed again before its retry instant. */
  lemma RetryIsNotClaimedEarly(ss: seq<State>, es: seq<Event>, skew: nat, r: nat, k: nat, u: Uid)
    requires IsRun(ss, es, skew) && r < k < |es| && FinishesHeld(ss[r], es[r], u)
    requires ss[r].flights[es[r].worker].verdict == Failure && ss[r].jobs[u].attempts < ss[r].jobs[u].maxAttempts
    requires forall n | r < n < k :: !Resets(ss[n], es[n], u)
    requires es[k].Claim? && es[k].pick == Some(u)
    ensures es[r].retryAt <= es[k].at
  {
    hide Next, Resets;
    FinishWrites(ss, es, skew, r, u);
    RowUidIsUsed(ss, es, skew, r + 1, u);
    NotClaimedWhileWaiting(ss, es, skew, r + 1, k, u, es[r].retryAt);
  }

  /** A postponed job is not claimed again before the instant its handler asked for. */
  lemma PostponedIsNotClaimedEarly(ss: seq<State>, es: seq<Event>, skew: nat, r: nat, k: nat, u: Uid)
    requires IsRun(ss, es, skew) && r < k < |es| && FinishesHeld(ss[r], es[r], u)
    requires ss[r].flights[es[r].worker].verdict.Later?
    requires forall n | r < n < k :: !Resets(ss[n], es[n], u)
    requires es[k].Claim? && es[k].pick == Some(u)
    ensures ss[r].flights[es[r].worker].verdict.at <= es[k].at
  {
    hide Next, Resets;
    FinishWrites(ss, es, skew, r, u);
    RowUidIsUsed(ss, es, skew, r + 1, u);
    NotClaimedWhileWaiting(ss, es, skew, r + 1, k, u, ss[r].flights[es[r].worker].verdict.at);
  }

  /** An update that leaves a case closed makes its purge job wait for the retention date. */
  lemma ClosingWrites(ss: seq<State>, es: seq<Event>, skew: nat, r: nat, c: Uid, u: Uid)
    requires IsRun(ss, es, skew) && r < |es| && es[r].UpdateCase? && es[r].caseUid == c
    requires c in ss[r].cases && c in ss[r + 1].cases && ss[r].cases[c] != ss[r + 1].cases[c]
    requires ss[r + 1].cases[c].status == Closed
    requires u in ss[r + 1].jobs && ss[r + 1].jobs[u].work == PurgeCase(c)
    ensures ss[r + 1].cases[c].retentionUntil.Some?
    ensures ss[r].cases[c].status != Closed ==> ss[r + 1].cases[c].retentionUntil.value == es[r].appNow + RETENTION
    ensures ss[r + 1].jobs[u].status == Pending && ss[r + 1].jobs[u].attempts == 0
    ensures ss[r + 1].jobs[u].availableAt == ss[r + 1].cases[c].retentionUntil.value
  {
    hide FlightsOk, PurgesOk, DecisionsOk, UidsOk, RowsOk;
    assert Next(ss[r], es[r], ss[r + 1], skew);
    ReachableInv(ss, es, skew, r + 1);
    assert WorkMatchesKey(ss[r + 1].jobs[u]) && WorkMatchesKey(ss[r + 1].jobs[es[r].target]);
    assert SameKey(ss[r + 1].jobs[u], ss[r + 1].jobs[es[r].target]);
    assert u == es[r].target;
  }

  /** A closed case's purge is not claimed before its retention date, unless it is re-armed in between. */
  lemma PurgeIsNotClaimedEarly(ss: seq<State>, es: seq<Event>, skew: nat, r: nat, k: nat, c: Uid, u: Uid)
    requires IsRun(ss, es, skew) && r < k < |es| && es[r].UpdateCase? && es[r].caseUid == c
    requires c in ss[r].cases && c in ss[r + 1].cases && ss[r].cases[c] != ss[r + 1].cases[c]
    requires ss[r].cases[c].status != Closed && ss[r + 1].cases[c].status == Closed
    requires u in ss[r + 1].jobs && ss[r + 1].jobs[u].work == PurgeCase(c)
    requires forall n | r < n < k :: !Resets(ss[n], es[n], u)
    requires es[k].Claim? && es[k].pick == Some(u)
    ensures es[r].appNow + RETENTION <= es[k].at
  {
    hide Next, Resets;
    ClosingWrites(ss, es, skew, r, c, u);
    RowUidIsUsed(ss, es, skew, r + 1, u);
    NotClaimedWhileWaiting(ss, es, skew, r + 1, k, u, es[r].appNow + RETENTION);
  }

  // ----- what the purge handler does -----

  /**
   The purge handler deletes the case exactly when it is closed past its retention date, and otherwise changes no
   case.
   */
  lemma PurgeDeletesExactlyWhenDue(ss: seq<State>, es: seq<Event>, skew: nat, k: nat)
    requires IsRun(ss, es, skew) && k < |es| && es[k].HandlePurge?
    ensures es[k].worker in ss[k].flights && ss[k].flights[es[k].worker].job.work.PurgeCase?
            && es[k].worker in ss[k + 1].flights
    ensures var c, f := ss[k].flights[es[k].worker].job.work.caseUid, ss[k + 1].flights[es[k].worker];
            var due := c in ss[k].cases && ss[k].cases[c].status == Closed && ss[k].cases[c].retentionUntil.Some?
                       && ss[k].cases[c].retentionUntil.value <= es[k].at;
            && ss[k + 1].cases == (if due && !es[k].fails then ss[k].cases - {c} else ss[k].cases)
            && f.Decided?
            && (es[k].fails <==> f.verdict == Failure)
            && (f.verdict.Later? <==>
                  !es[k].fails && c in ss[k].cases && ss[k].cases[c].status == Closed && !due)
            && (f.verdict.Later? ==> ss[k].cases[c].retentionUntil == Some(f.verdict.at))
  {
    hide FirstCandidate, Sweep;
    assert Next(ss[k], es[k], ss[k + 1], skew);
    var c := ss[k].flights[es[k].worker].job.work.caseUid;
    if c in ss[k].cases {
      ReachableCaseOk(ss, es, skew, k, c);
    }
  }
}
