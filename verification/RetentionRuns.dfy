/** What holds over every run of workers and Support Case updates. */
module RetentionRuns {
  import opened Common
  import opened Jobs
  import opened SupportCases
  import opened Retention
  import opened RetentionProofs

  lemma StepClock(s: State, e: Event, s': State, skew: nat)
    requires Next(s, e, s', skew)
    ensures s.now <= e.at == s'.now
  {
  }

  lemma {:induction false} ClockMonotone(ss: seq<State>, es: seq<Event>, skew: nat, i: nat, j: nat)
    requires IsRun(ss, es, skew) && i <= j < |ss|
    ensures ss[i].now <= ss[j].now
  {
    if i < j {
      ClockMonotone(ss, es, skew, i, j - 1);
      assert Next(ss[j - 1], es[j - 1], ss[j], skew);
    }
  }

  /** In every reachable state a closed case has exactly one purge row, and it is pending, running or dead-lettered. */
  lemma PurgeNeverLost(ss: seq<State>, es: seq<Event>, skew: nat, i: nat, c: Uid)
    requires IsRun(ss, es, skew) && i < |ss| && CaseClosed(ss[i], c)
    ensures exists u ::
              && u in ss[i].jobs
              && ss[i].jobs[u].work == PurgeCase(c)
              && ss[i].jobs[u].status in {Pending, Running, DeadLettered}
              && forall v | v in ss[i].jobs && ss[i].jobs[v].work == PurgeCase(c) :: v == u
  {
    ReachableInv(ss, es, skew, i);
    var s := ss[i];
    var u :| LivePurge(s, c, u);
    assert WorkMatchesKey(s.jobs[u]);
    forall v | v in s.jobs && s.jobs[v].work == PurgeCase(c) ensures v == u {
      assert WorkMatchesKey(s.jobs[v]) && SameKey(s.jobs[v], s.jobs[u]);
    }
  }

  /** Once a worker's lease is no longer current it never becomes current again. */
  lemma {:induction false} LostLeaseNeverReturns(ss: seq<State>, es: seq<Event>, skew: nat, i: nat, j: nat,
      uid: Uid, lease: Uid)
    requires IsRun(ss, es, skew) && i <= j < |ss|
    requires lease in ss[i].used && !Holds(ss[i].jobs, uid, lease)
    ensures lease in ss[j].used && !Holds(ss[j].jobs, uid, lease)
  {
    if i < j {
      LostLeaseNeverReturns(ss, es, skew, i, j - 1, uid, lease);
      ReachableInv(ss, es, skew, j - 1);
      HeldRowUnchanged(ss[j - 1], es[j - 1], ss[j], skew, uid, lease);
    }
  }

  lemma {:induction false} UsedGrows(ss: seq<State>, es: seq<Event>, skew: nat, i: nat, j: nat)
    requires IsRun(ss, es, skew) && i <= j < |ss|
    ensures ss[i].used <= ss[j].used
  {
    if i < j {
      UsedGrows(ss, es, skew, i, j - 1);
      assert Next(ss[j - 1], es[j - 1], ss[j], skew);
    }
  }

  lemma {:induction false} HeldRowFrozen(ss: seq<State>, es: seq<Event>, skew: nat, i: nat, j: nat,
      uid: Uid, lease: Uid)
    requires IsRun(ss, es, skew) && i <= j < |ss|
    requires lease in ss[i].used && Holds(ss[j].jobs, uid, lease)
    ensures Holds(ss[i].jobs, uid, lease) && ss[j].jobs[uid] == ss[i].jobs[uid]
  {
    hide Inv, Apply, Enabled;
    if i < j {
      UsedGrows(ss, es, skew, i, j - 1);
      ReachableInv(ss, es, skew, j - 1);
      HeldRowUnchanged(ss[j - 1], es[j - 1], ss[j], skew, uid, lease);
      HeldRowFrozen(ss, es, skew, i, j - 1, uid, lease);
    }
  }

  lemma HolderCopyAgrees(ss: seq<State>, es: seq<Event>, skew: nat, i: nat, w: Uid)
    requires IsRun(ss, es, skew) && i < |ss| && w in ss[i].flights
    ensures var f := ss[i].flights[w];
            f.job.leaseUid in ss[i].used && CopyAgrees(ss[i].jobs, f.job) && DoneNotClosed(ss[i], f)
  {
    hide Apply, Enabled;
    ReachableInv(ss, es, skew, i);
  }

  lemma HeldSoNotClosing(ss: seq<State>, es: seq<Event>, skew: nat, i: nat, j: nat, k: nat, job: Claimed)
    requires IsRun(ss, es, skew) && i <= k < j < |ss|
    requires job.leaseUid in ss[i].used && CopyAgrees(ss[i].jobs, job) && job.work.PurgeCase?
    requires Holds(ss[j].jobs, job.uid, job.leaseUid)
    ensures !Closes(ss[k], es[k], job.work.caseUid)
  {
    hide Apply, Enabled;
    UsedGrows(ss, es, skew, i, k);
    UsedGrows(ss, es, skew, i, k + 1);
    HeldRowFrozen(ss, es, skew, i, j, job.uid, job.leaseUid);
    HeldRowFrozen(ss, es, skew, k, j, job.uid, job.leaseUid);
    HeldRowFrozen(ss, es, skew, k + 1, j, job.uid, job.leaseUid);
    ReachableInv(ss, es, skew, k);
    HeldMeansNotClosing(ss[k], es[k], ss[k + 1], skew, job.work.caseUid, job);
  }

  /**
   A worker decided, in state i, that the job needs no more work. If its lease is still
   current in a later state j, then no update left the case closed in between, and the
   case is not closed in j: completing the job cannot lose a purge.
   */
  lemma CompletionNeverLosesPurge(ss: seq<State>, es: seq<Event>, skew: nat, i: nat, j: nat, w: Uid)
    requires IsRun(ss, es, skew) && i <= j < |ss|
    requires w in ss[i].flights && ss[i].flights[w].Decided? && ss[i].flights[w].verdict == Done
    requires ss[i].flights[w].job.work.PurgeCase?
    requires Holds(ss[j].jobs, ss[i].flights[w].job.uid, ss[i].flights[w].job.leaseUid)
    ensures forall k | i <= k < j :: !Closes(ss[k], es[k], ss[i].flights[w].job.work.caseUid)
    ensures !CaseClosed(ss[j], ss[i].flights[w].job.work.caseUid)
  {
    hide Inv, Apply, Enabled;
    var job := ss[i].flights[w].job;
    HolderCopyAgrees(ss, es, skew, i, w);
    HeldRowFrozen(ss, es, skew, i, j, job.uid, job.leaseUid);
    forall k | i <= k < j ensures !Closes(ss[k], es[k], job.work.caseUid) {
      HeldSoNotClosing(ss, es, skew, i, j, k, job);
    }
    NotClosedStays(ss, es, skew, i, j, job.work.caseUid);
  }

  lemma {:induction false} NotClosedStays(ss: seq<State>, es: seq<Event>, skew: nat, i: nat, j: nat, c: Uid)
    requires IsRun(ss, es, skew) && i <= j < |ss| && !CaseClosed(ss[i], c)
    requires forall k | i <= k < j :: !Closes(ss[k], es[k], c)
    ensures !CaseClosed(ss[j], c)
  {
    if i < j {
      NotClosedStays(ss, es, skew, i, j - 1, c);
      assert Next(ss[j - 1], es[j - 1], ss[j], skew);
    }
  }

  // ----- purge safety -----

  /** In state i, case c was closed in every earlier state whose clock is after `since`. */
  ghost predicate ClosedSince(ss: seq<State>, i: nat, c: Uid, since: Instant)
    requires i < |ss|
  {
    forall j | 0 <= j <= i && ss[j].now > since :: CaseClosed(ss[j], c)
  }

  lemma {:induction false} RetentionCountsFromClose(ss: seq<State>, es: seq<Event>, skew: nat, i: nat, c: Uid)
    requires IsRun(ss, es, skew) && i < |ss| && CaseClosed(ss[i], c)
    ensures ss[i].cases[c].retentionUntil.Some?
    ensures ClosedSince(ss, i, c, ss[i].cases[c].retentionUntil.value - RETENTION + skew)
  {
    ReachableCaseOk(ss, es, skew, i, c);
    if i > 0 {
      var s, e := ss[i - 1], es[i - 1];
      assert Next(s, e, ss[i], skew);
      if CaseClosed(s, c) {
        RetentionCountsFromClose(ss, es, skew, i - 1, c);
        assert ss[i].cases[c].retentionUntil == s.cases[c].retentionUntil;
      } else {
        assert Closes(s, e, c) && ss[i].cases[c].retentionUntil == Some(e.appNow + RETENTION);
        forall j | 0 <= j < i ensures ss[j].now <= e.appNow + skew {
          ClockMonotone(ss, es, skew, j, i);
        }
      }
    }
  }

  lemma ReachableCaseOk(ss: seq<State>, es: seq<Event>, skew: nat, i: nat, c: Uid)
    requires IsRun(ss, es, skew) && i < |ss| && c in ss[i].cases
    ensures CaseOk(ss[i].cases[c])
  {
    hide Apply, Enabled;
    ReachableInv(ss, es, skew, i);
  }

  /**
   Purge safety: whenever a step removes a case, the case was closed in every state of the
   run whose database clock lies in the last 365 days (less the skew between the clock of
   the server that closed it and the database's).
   */
  lemma PurgeOnlyAfterRetention(ss: seq<State>, es: seq<Event>, skew: nat, i: nat, c: Uid)
    requires IsRun(ss, es, skew) && i < |es|
    requires c in ss[i].cases && c !in ss[i + 1].cases
    ensures ClosedSince(ss, i, c, ss[i + 1].now - RETENTION + skew)
  {
    assert Next(ss[i], es[i], ss[i + 1], skew);
    assert es[i].HandlePurge? && PurgeDeletes(ss[i].cases, c, es[i].at);
    RetentionCountsFromClose(ss, es, skew, i, c);
  }

  // ----- lease authority -----

  /** The holder of this lease finishes, or a case update re-arms the row. */
  predicate Releases(s: State, e: Event, uid: Uid, lease: Uid) {
    || (e.Finish? && e.worker in s.flights
        && s.flights[e.worker].job.uid == uid && s.flights[e.worker].job.leaseUid == lease)
    || (Updates(s, e) && CaseAfter(s, e).status == Closed && e.target == uid)
  }

  /** A step changes a row under an unexpired lease only by releasing that very lease. */
  lemma OnlyHolderActs(s: State, e: Event, s': State, skew: nat, uid: Uid, lease: Uid)
    requires Inv(s) && Next(s, e, s', skew)
    requires Holds(s.jobs, uid, lease) && !LeaseExpired(s.jobs[uid], e.at)
    requires !Releases(s, e, uid, lease)
    ensures uid in s'.jobs && s'.jobs[uid] == s.jobs[uid]
    ensures !(e.Claim? && e.pick == Some(uid))
  {
    assert RowOk(s.jobs[uid]);
  }

  /**
   Lease authority: before the lease held in state i expires, no later claim is granted the
   same job unless the holder finished it or a case update re-armed it in between.
   */
  lemma {:induction false} LeaseIsExclusive(ss: seq<State>, es: seq<Event>, skew: nat, i: nat, j: nat,
      uid: Uid, lease: Uid)
    requires IsRun(ss, es, skew) && i <= j < |es|
    requires Holds(ss[i].jobs, uid, lease) && !LeaseExpired(ss[i].jobs[uid], es[j].at)
    requires es[j].Claim? && es[j].pick == Some(uid)
    ensures exists k | i <= k < j :: Releases(ss[k], es[k], uid, lease)
  {
    hide Apply;
    if forall k | i <= k < j :: !Releases(ss[k], es[k], uid, lease) {
      assert Next(ss[j], es[j], ss[j + 1], skew) && ss[j].now <= es[j].at;
      UnreleasedRowFrozen(ss, es, skew, i, j, uid, lease);
      ReachableInv(ss, es, skew, j);
      OnlyHolderActs(ss[j], es[j], ss[j + 1], skew, uid, lease);
    }
  }

  lemma {:induction false} UnreleasedRowFrozen(ss: seq<State>, es: seq<Event>, skew: nat, i: nat, j: nat,
      uid: Uid, lease: Uid)
    requires IsRun(ss, es, skew) && i <= j < |ss|
    requires Holds(ss[i].jobs, uid, lease) && !LeaseExpired(ss[i].jobs[uid], ss[j].now)
    requires forall k | i <= k < j :: !Releases(ss[k], es[k], uid, lease)
    ensures uid in ss[j].jobs && ss[j].jobs[uid] == ss[i].jobs[uid]
  {
    hide Apply;
    if i < j {
      ClockMonotone(ss, es, skew, j - 1, j);
      UnreleasedRowFrozen(ss, es, skew, i, j - 1, uid, lease);
      ReachableInv(ss, es, skew, j - 1);
      StepClock(ss[j - 1], es[j - 1], ss[j], skew);
      OnlyHolderActs(ss[j - 1], es[j - 1], ss[j], skew, uid, lease);
    }
  }

  /** The flag a worker gets from Retry, computed from its copy, always matches the stored status. */
  lemma RetryFlagIsStoredStatus(ss: seq<State>, es: seq<Event>, skew: nat, i: nat, w: Uid, availableAt: Instant,
      at: Instant)
    requires IsRun(ss, es, skew) && i < |ss| && w in ss[i].flights
    requires var job := ss[i].flights[w].job; Holds(ss[i].jobs, job.uid, job.leaseUid)
    ensures var job := ss[i].flights[w].job;
            job.attempt >= job.maxAttempts <==>
            RetryInTable(ss[i].jobs, job, availableAt, at)[job.uid].status == DeadLettered
  {
    ReachableInv(ss, es, skew, i);
    assert CopyAgrees(ss[i].jobs, ss[i].flights[w].job);
  }

  // ----- attempt conservation -----

  predicate GivesBack(s: State, e: Event, uid: Uid) {
    && e.Finish? && e.worker in s.flights && s.flights[e.worker].Decided?
    && s.flights[e.worker].verdict.Later? && s.flights[e.worker].job.uid == uid
    && Holds(s.jobs, uid, s.flights[e.worker].job.leaseUid)
  }

  predicate Resets(s: State, e: Event, uid: Uid) {
    || (e.Replay? && e.jobUid == uid && uid in s.jobs && s.jobs[uid].status == DeadLettered)
    || (Updates(s, e) && CaseAfter(s, e).status == Closed && e.target == uid)
    || (e.Enqueue? && e.jobUid == uid)
  }

  /** Claims minus rescheduled claims of a job since it was last set back to zero. */
  ghost function NetClaims(ss: seq<State>, es: seq<Event>, n: nat, uid: Uid): int
    requires n <= |es| < |ss|
  {
    if n == 0 then 0
    else
      var s, e, before := ss[n - 1], es[n - 1], NetClaims(ss, es, n - 1, uid);
      if e.Claim? && e.pick == Some(uid) then before + 1
      else if GivesBack(s, e, uid) then before - 1
      else if Resets(s, e, uid) then 0
      else before
  }

  /** How one step moves the attempt counter of a row that is there afterwards. */
  lemma AttemptsOfStep(s: State, e: Event, s': State, skew: nat, uid: Uid)
    requires RowsOk(s) && CasesOk(s) && UidsOk(s) && Next(s, e, s', skew) && uid in s'.jobs
    ensures Resets(s, e, uid) ==> s'.jobs[uid].attempts == 0
    ensures !Resets(s, e, uid) ==>
              && uid in s.jobs
              && s'.jobs[uid].attempts ==
                 if e.Claim? && e.pick == Some(uid) then s.jobs[uid].attempts + 1
                 else if GivesBack(s, e, uid) then s.jobs[uid].attempts - 1
                 else s.jobs[uid].attempts
  {
    hide ClaimState, FirstCandidate, HandlePurgeState;
    if e.Claim? {
      ClaimEffect(s, e, s', skew);
    }
    assert uid in s.jobs ==> RowOk(s.jobs[uid]);
    assert Updates(s, e) ==> CaseOk(CaseAfter(s, e)) by {
      if Updates(s, e) {
        UpdateKeepsCaseOk(s.cases[e.caseUid], e.status, e.appNow);
      }
    }
  }

  /**
   Attempt conservation: the stored counter is the number of net claims since the last reset;
   so a job is dead-lettered exactly when its net claims have reached the bound, and a pending
   job always has a claim left.
   */
  lemma {:induction false} AttemptsAreNetClaims(ss: seq<State>, es: seq<Event>, skew: nat, n: nat, uid: Uid)
    requires IsRun(ss, es, skew) && n <= |es| && uid in ss[n].jobs
    ensures ss[n].jobs[uid].attempts == NetClaims(ss, es, n, uid)
    ensures ss[n].jobs[uid].status == DeadLettered ==> NetClaims(ss, es, n, uid) == ss[n].jobs[uid].maxAttempts
    ensures ss[n].jobs[uid].status == Pending ==> NetClaims(ss, es, n, uid) < ss[n].jobs[uid].maxAttempts
    ensures ss[n].jobs[uid].status == Running ==> 1 <= NetClaims(ss, es, n, uid) <= ss[n].jobs[uid].maxAttempts
  {
    hide Apply, Enabled;
    ReachableInv(ss, es, skew, n);
    assert RowOk(ss[n].jobs[uid]);
    if n > 0 {
      ReachableInv(ss, es, skew, n - 1);
      AttemptsOfStep(ss[n - 1], es[n - 1], ss[n], skew, uid);
      if !Resets(ss[n - 1], es[n - 1], uid) {
        AttemptsAreNetClaims(ss, es, skew, n - 1, uid);
      }
    }
  }

  /**
   A failed attempt dead-letters the job exactly when its net claims have reached the bound, and otherwise makes it
   pending again.
   */
  lemma FailureDeadLettersAtTheBound(ss: seq<State>, es: seq<Event>, skew: nat, n: nat)
    requires IsRun(ss, es, skew) && n < |es| && es[n].Finish?
    requires es[n].worker in ss[n].flights && ss[n].flights[es[n].worker].Decided?
    requires ss[n].flights[es[n].worker].verdict == Failure
    requires Holds(ss[n].jobs, ss[n].flights[es[n].worker].job.uid, ss[n].flights[es[n].worker].job.leaseUid)
    ensures var uid := ss[n].flights[es[n].worker].job.uid;
            && uid in ss[n + 1].jobs
            && (ss[n + 1].jobs[uid].status == DeadLettered
                <==> NetClaims(ss, es, n, uid) == ss[n].jobs[uid].maxAttempts)
            && (ss[n + 1].jobs[uid].status == Pending <==> NetClaims(ss, es, n, uid) < ss[n].jobs[uid].maxAttempts)
  {
    hide Inv, Enabled;
    assert Next(ss[n], es[n], ss[n + 1], skew);
    AttemptsAreNetClaims(ss, es, skew, n, ss[n].flights[es[n].worker].job.uid);
  }

  /** How many of the steps from r up to n claim the job. */
  function ClaimsOf(es: seq<Event>, r: nat, n: nat, uid: Uid): nat
    requires r <= n <= |es|
  {
    if n == r then 0
    else ClaimsOf(es, r, n - 1, uid) + if es[n - 1].Claim? && es[n - 1].pick == Some(uid) then 1 else 0
  }

  lemma {:induction false} NetClaimsSinceReset(ss: seq<State>, es: seq<Event>, r: nat, n: nat, uid: Uid)
    requires r < n <= |es| < |ss| && Resets(ss[r], es[r], uid)
    requires forall k | r < k < n :: !Resets(ss[k], es[k], uid) && !GivesBack(ss[k], es[k], uid)
    ensures NetClaims(ss, es, n, uid) == ClaimsOf(es, r + 1, n, uid)
  {
    hide Resets, GivesBack;
    if n > r + 1 {
      NetClaimsSinceReset(ss, es, r, n - 1, uid);
    } else {
      ResetIsNoClaim(ss[r], es[r], uid);
    }
  }

  lemma ResetIsNoClaim(s: State, e: Event, uid: Uid)
    requires Resets(s, e, uid)
    ensures !e.Claim? && !GivesBack(s, e, uid)
  {
  }

  /**
   A job that is not rescheduled after it was enqueued, replayed or re-armed in step r has been claimed exactly
   max_attempts times when it is dead-lettered, fewer times while it is pending, and never more.
   */
  lemma DeadLetteredAfterMaxAttempts(ss: seq<State>, es: seq<Event>, skew: nat, r: nat, n: nat, uid: Uid)
    requires IsRun(ss, es, skew) && r < n <= |es| && Resets(ss[r], es[r], uid) && uid in ss[n].jobs
    requires forall k | r < k < n :: !Resets(ss[k], es[k], uid) && !GivesBack(ss[k], es[k], uid)
    ensures ClaimsOf(es, r + 1, n, uid) <= ss[n].jobs[uid].maxAttempts
    ensures ss[n].jobs[uid].status == DeadLettered ==> ClaimsOf(es, r + 1, n, uid) == ss[n].jobs[uid].maxAttempts
    ensures ss[n].jobs[uid].status == Pending ==> ClaimsOf(es, r + 1, n, uid) < ss[n].jobs[uid].maxAttempts
  {
    hide Next, Resets, GivesBack, Inv;
    NetClaimsSinceReset(ss, es, r, n, uid);
    AttemptsAreNetClaims(ss, es, skew, n, uid);
    ReachableInv(ss, es, skew, n);
    AttemptsInBounds(ss[n], uid);
  }

  lemma AttemptsInBounds(s: State, uid: Uid)
    requires Inv(s) && uid in s.jobs
    ensures s.jobs[uid].attempts <= s.jobs[uid].maxAttempts
  {
    assert RowOk(s.jobs[uid]);
  }
}
