/** Every step keeps the retention invariants. */
module RetentionProofs {
  import opened Common
  import opened Jobs
  import opened SupportCases
  import opened Retention

  /** What a claim makes of a row: dead-lettered if it was exhausted, and leased if it was picked. */
  function RowAfterClaim(j: Job, u: Uid, e: Event): Job
    requires e.Claim?
  {
    var swept := if Exhausted(j, e.queue, e.sweepAt) then DeadLetterRow(j, e.sweepAt) else j;
    if e.pick == Some(u) then LeaseRow(swept, e.lease, e.at + e.leaseSeconds * SECOND) else swept
  }

  lemma ClaimEffect(s: State, e: Event, s': State, skew: nat)
    requires Next(s, e, s', skew) && e.Claim?
    ensures s'.jobs.Keys == s.jobs.Keys
    ensures forall u | u in s.jobs :: s'.jobs[u] == RowAfterClaim(s.jobs[u], u, e)
    ensures e.pick.Some? ==> e.pick.value in s.jobs && Eligible(s.jobs[e.pick.value], e.queue, e.at)
                             && !Exhausted(s.jobs[e.pick.value], e.queue, e.sweepAt)
  {
  }

  lemma ClaimKeepsRow(j: Job, u: Uid, e: Event)
    requires RowOk(j) && e.Claim?
    requires e.pick == Some(u) ==> Eligible(j, e.queue, e.at) && !Exhausted(j, e.queue, e.sweepAt)
    ensures RowOk(RowAfterClaim(j, u, e))
  {
  }

  lemma OtherStepKeepsRow(s: State, e: Event, s': State, skew: nat, u: Uid)
    requires RowsOk(s) && Next(s, e, s', skew) && !e.Claim? && u in s'.jobs
    ensures RowOk(s'.jobs[u])
  {
    hide ClaimState, FirstCandidate, HandlePurgeState;
    assert u in s.jobs ==> RowOk(s.jobs[u]);
  }

  lemma StepKeepsRow(s: State, e: Event, s': State, skew: nat, u: Uid)
    requires RowsOk(s) && Next(s, e, s', skew) && u in s'.jobs
    ensures RowOk(s'.jobs[u])
  {
    hide Next, RowAfterClaim, RowOk;
    if e.Claim? {
      ClaimEffect(s, e, s', skew);
      ClaimKeepsRow(s.jobs[u], u, e);
    } else {
      OtherStepKeepsRow(s, e, s', skew, u);
    }
  }

  lemma StepKeepsRows(s: State, e: Event, s': State, skew: nat)
    requires RowsOk(s) && Next(s, e, s', skew)
    ensures RowsOk(s')
  {
    forall u | u in s'.jobs ensures RowOk(s'.jobs[u]) {
      StepKeepsRow(s, e, s', skew, u);
    }
  }

  lemma StepKeepsCases(s: State, e: Event, s': State, skew: nat)
    requires CasesOk(s) && Next(s, e, s', skew)
    ensures CasesOk(s')
  {
  }

  predicate SameIdentity(a: Job, b: Job) {
    a.queue == b.queue && a.work == b.work && a.dedupKey == b.dedupKey && a.maxAttempts == b.maxAttempts
  }

  /** A row keeps its queue, work, key and bound; a row that appears has a key no other row has. */
  lemma StepKeepsIdentity(s: State, e: Event, s': State, skew: nat, u: Uid)
    requires UidsOk(s) && Next(s, e, s', skew) && u in s'.jobs
    ensures u in s.jobs ==> SameIdentity(s.jobs[u], s'.jobs[u])
    ensures u !in s.jobs ==>
              && WorkMatchesKey(s'.jobs[u])
              && s'.jobs.Keys == s.jobs.Keys + {u}
              && forall v | v in s.jobs :: !SameKey(s'.jobs[u], s.jobs[v])
  {
    hide ClaimState, FirstCandidate, HandlePurgeState;
    if e.Claim? {
      ClaimEffect(s, e, s', skew);
    }
  }

  lemma StepKeepsKeys(s: State, e: Event, s': State, skew: nat)
    requires UidsOk(s) && KeysOk(s) && Next(s, e, s', skew)
    ensures KeysOk(s')
  {
    forall u | u in s'.jobs ensures WorkMatchesKey(s'.jobs[u]) {
      StepKeepsIdentity(s, e, s', skew, u);
    }
    forall u, v | u in s'.jobs && v in s'.jobs && SameKey(s'.jobs[u], s'.jobs[v]) ensures u == v {
      StepKeepsIdentity(s, e, s', skew, u);
      StepKeepsIdentity(s, e, s', skew, v);
    }
  }

  predicate JobUidsOk(j: Job, used: set<Uid>) {
    && (j.leaseUid.Some? ==> j.leaseUid.value in used)
    && (j.work.PurgeCase? ==> j.work.caseUid in used)
  }

  predicate FlightUidsOk(f: Flight, used: set<Uid>) {
    f.job.leaseUid in used && f.job.uid in used && (f.job.work.PurgeCase? ==> f.job.work.caseUid in used)
  }

  lemma StepKeepsJobUids(s: State, e: Event, s': State, skew: nat, u: Uid)
    requires UidsOk(s) && Next(s, e, s', skew) && u in s'.jobs
    ensures u in s'.used && JobUidsOk(s'.jobs[u], s'.used)
  {
    assert u in s.jobs ==> JobUidsOk(s.jobs[u], s.used);
  }

  lemma StepKeepsFlightUids(s: State, e: Event, s': State, skew: nat, w: Uid)
    requires UidsOk(s) && Next(s, e, s', skew) && w in s'.flights
    ensures FlightUidsOk(s'.flights[w], s'.used)
  {
    assert w in s.flights ==> FlightUidsOk(s.flights[w], s.used);
  }

  lemma StepKeepsUids(s: State, e: Event, s': State, skew: nat)
    requires UidsOk(s) && Next(s, e, s', skew)
    ensures UidsOk(s')
  {
    forall u | u in s'.jobs ensures u in s'.used && JobUidsOk(s'.jobs[u], s'.used) {
      StepKeepsJobUids(s, e, s', skew, u);
    }
    forall w | w in s'.flights ensures FlightUidsOk(s'.flights[w], s'.used) {
      StepKeepsFlightUids(s, e, s', skew, w);
    }
  }

  /** A lease becomes current only in the claim that creates it, and a row under a current lease never changes. */
  lemma HeldRowUnchanged(s: State, e: Event, s': State, skew: nat, uid: Uid, lease: Uid)
    requires UidsOk(s) && Next(s, e, s', skew) && lease in s.used
    ensures lease in s'.used
    ensures Holds(s'.jobs, uid, lease) ==> Holds(s.jobs, uid, lease) && s'.jobs[uid] == s.jobs[uid]
  {
  }

  lemma StepKeepsFlight(s: State, e: Event, s': State, skew: nat, w: Uid)
    requires UidsOk(s) && FlightsOk(s) && Next(s, e, s', skew) && w in s'.flights
    ensures CopyAgrees(s'.jobs, s'.flights[w].job)
  {
    if w in s.flights {
      assert s'.flights[w].job == s.flights[w].job;
      assert CopyAgrees(s.jobs, s.flights[w].job) && FlightUidsOk(s.flights[w], s.used);
      HeldRowUnchanged(s, e, s', skew, s.flights[w].job.uid, s.flights[w].job.leaseUid);
    }
  }

  lemma StepKeepsFlights(s: State, e: Event, s': State, skew: nat)
    requires UidsOk(s) && FlightsOk(s) && Next(s, e, s', skew)
    ensures FlightsOk(s')
  {
    forall w | w in s'.flights ensures CopyAgrees(s'.jobs, s'.flights[w].job) {
      StepKeepsFlight(s, e, s', skew, w);
    }
  }

  /** Closing a case takes the purge job away from whoever held it. */
  lemma ClosingClearsLease(s: State, e: Event, s': State, skew: nat, c: Uid, job: Claimed)
    requires KeysOk(s) && Next(s, e, s', skew) && Closes(s, e, c)
    requires CaseOk(CaseAfter(s, e))
    requires CopyAgrees(s.jobs, job) && job.work == PurgeCase(c)
    ensures !Holds(s'.jobs, job.uid, job.leaseUid)
  {
    if Holds(s.jobs, job.uid, job.leaseUid) {
      assert WorkMatchesKey(s.jobs[job.uid]);
      assert SameKey(s.jobs[job.uid], s.jobs[e.target]);
    }
  }

  lemma HeldMeansNotClosing(s: State, e: Event, s': State, skew: nat, c: Uid, job: Claimed)
    requires CasesOk(s) && KeysOk(s) && Next(s, e, s', skew)
    requires CopyAgrees(s.jobs, job) && job.work == PurgeCase(c)
    requires Holds(s'.jobs, job.uid, job.leaseUid)
    ensures !Closes(s, e, c)
  {
    if Closes(s, e, c) {
      StepKeepsCases(s, e, s', skew);
      ClosingClearsLease(s, e, s', skew, c, job);
    }
  }

  lemma StepKeepsDecision(s: State, e: Event, s': State, skew: nat, w: Uid)
    requires Inv(s) && Next(s, e, s', skew) && w in s'.flights
    ensures DoneNotClosed(s', s'.flights[w])
  {
    var f := s'.flights[w];
    if f.Decided? && f.verdict == Done && f.job.work.PurgeCase? && CaseClosed(s', f.job.work.caseUid) {
      var c := f.job.work.caseUid;
      assert w in s.flights && s.flights[w] == f;
      assert CopyAgrees(s.jobs, f.job) && DoneNotClosed(s, f);
      if CaseClosed(s, c) {
        HeldRowUnchanged(s, e, s', skew, f.job.uid, f.job.leaseUid);
      } else {
        StepKeepsCases(s, e, s', skew);
        ClosingClearsLease(s, e, s', skew, c, f.job);
      }
    }
  }

  lemma StepKeepsDecisions(s: State, e: Event, s': State, skew: nat)
    requires Inv(s) && Next(s, e, s', skew)
    ensures DecisionsOk(s')
  {
    forall w | w in s'.flights ensures DoneNotClosed(s', s'.flights[w]) {
      StepKeepsDecision(s, e, s', skew, w);
    }
  }

  lemma ClaimKeepsLivePurge(s: State, e: Event, s': State, skew: nat, c: Uid, u: Uid)
    requires Next(s, e, s', skew) && e.Claim? && LivePurge(s, c, u)
    ensures LivePurge(s', c, u)
  {
    hide Next;
    ClaimEffect(s, e, s', skew);
  }

  /** A purge row that is not completed stays so, unless a worker with current authority completes it. */
  lemma LivePurgeStays(s: State, e: Event, s': State, skew: nat, c: Uid, u: Uid)
    requires Inv(s) && Next(s, e, s', skew)
    requires CaseClosed(s, c) && LivePurge(s, c, u)
    ensures LivePurge(s', c, u)
  {
    hide ClaimState, FirstCandidate, HandlePurgeState, PurgesOk, RowsOk;
    if e.Claim? {
      ClaimKeepsLivePurge(s, e, s', skew, c, u);
    } else {
      assert WorkMatchesKey(s.jobs[u]);
      assert e.Finish? ==> CopyAgrees(s.jobs, s.flights[e.worker].job) && DoneNotClosed(s, s.flights[e.worker]);
    }
  }

  lemma StepKeepsPurges(s: State, e: Event, s': State, skew: nat)
    requires Inv(s) && Next(s, e, s', skew)
    ensures PurgesOk(s')
  {
    forall c | CaseClosed(s', c) ensures exists u :: LivePurge(s', c, u) {
      if CaseClosed(s, c) {
        var u :| LivePurge(s, c, u);
        LivePurgeStays(s, e, s', skew, c, u);
      } else {
        assert Closes(s, e, c);
        assert LivePurge(s', c, e.target);
      }
    }
  }

  lemma StepKeepsInv(s: State, e: Event, s': State, skew: nat)
    requires Inv(s) && Next(s, e, s', skew)
    ensures Inv(s')
  {
    StepKeepsRows(s, e, s', skew);
    StepKeepsCases(s, e, s', skew);
    StepKeepsKeys(s, e, s', skew);
    StepKeepsUids(s, e, s', skew);
    StepKeepsFlights(s, e, s', skew);
    StepKeepsDecisions(s, e, s', skew);
    StepKeepsPurges(s, e, s', skew);
  }

  lemma {:induction false} ReachableInv(ss: seq<State>, es: seq<Event>, skew: nat, i: nat)
    requires IsRun(ss, es, skew) && i < |ss|
    ensures Inv(ss[i])
  {
    if i > 0 {
      ReachableInv(ss, es, skew, i - 1);
      StepKeepsInv(ss[i - 1], es[i - 1], ss[i], skew);
    }
  }
}
