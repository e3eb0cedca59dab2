/**
 The status and retention part of Support Cases (internal/api/support_cases.go) and the
 purge handler (internal/api/background_jobs.go), over the same job table.
 */
module SupportCases {
  import opened Common
  import opened Jobs

  datatype CaseStatus = Open | InProgress | WaitingForCustomer | Resolved | Closed

  datatype Case = Case(
    status: CaseStatus,
    resolvedAt: Option<Instant>,
    closedAt: Option<Instant>,
    retentionUntil: Option<Instant>,
    version: nat)

  type Cases = map<Uid, Case>

  datatype UpdateOutcome = CaseNotFound | VersionConflict | InvalidTransition | Unchanged | Failed | Updated

  const RETENTION: Duration := 365 * DAY
  const RETENTION_QUEUE: string := "retention"

  const TRANSITIONS: map<CaseStatus, set<CaseStatus>> :=
    map[
      Open := {InProgress, WaitingForCustomer, Resolved, Closed},
      InProgress := {Open, WaitingForCustomer, Resolved, Closed},
      WaitingForCustomer := {Open, InProgress, Resolved, Closed},
      Resolved := {Open, Closed},
      Closed := {Open}
    ]

  predicate TransitionAllowed(from: CaseStatus, to: CaseStatus) {
    from == to || (from in TRANSITIONS && to in TRANSITIONS[from])
  }

  /** The timestamps say exactly what the status says. */
  predicate CaseOk(c: Case) {
    && (c.closedAt.Some? <==> c.status == Closed)
    && (c.retentionUntil.Some? <==> c.status == Closed)
    && (c.status == Closed ==> c.retentionUntil.value == c.closedAt.value + RETENTION)
    && (c.status == Resolved ==> c.resolvedAt.Some?)
    && (c.status != Resolved && c.status != Closed ==> c.resolvedAt.None?)
  }

  const NEW_CASE: Case := Case(Open, None, None, None, 1)

  function WithStatus(c: Case, to: CaseStatus, now: Instant): Case {
    var moved := c.(status := to);
    if to == Resolved then
      moved.(resolvedAt := Some(now), closedAt := None, retentionUntil := None)
    else if to == Closed then
      moved.(closedAt := Some(now), retentionUntil := Some(now + RETENTION))
    else if c.status == Resolved || c.status == Closed then
      moved.(resolvedAt := None, closedAt := None, retentionUntil := None)
    else
      moved
  }

  /** The row an accepted update writes. */
  function UpdatedCase(c: Case, status: Option<CaseStatus>, now: Instant): Case {
    var moved := if status.Some? && status.value != c.status then WithStatus(c, status.value, now) else c;
    moved.(version := c.version + 1)
  }

  function OutcomeOf(cases: Cases, uid: Uid, expected: nat, status: Option<CaseStatus>,
                     otherChange: bool, now: Instant): UpdateOutcome
  {
    if uid !in cases then CaseNotFound
    else if cases[uid].version != expected then VersionConflict
    else if status.Some? && !TransitionAllowed(cases[uid].status, status.value) then InvalidTransition
    else if !otherChange && (status.None? || status.value == cases[uid].status) then Unchanged
    else
      var updated := UpdatedCase(cases[uid], status, now);
      if updated.status == Closed && updated.retentionUntil.None? then Failed else Updated
  }

  predicate IsPurgeRow(j: Job, caseUid: Uid) {
    j.queue == RETENTION_QUEUE && j.dedupKey == Some(SupportCaseKey(caseUid))
  }

  /** The row the upsert lands on: the one with this key, or an unused uid when there is none. */
  predicate UpsertTarget(t: Table, caseUid: Uid, target: Uid) {
    if target in t then IsPurgeRow(t[target], caseUid)
    else forall u | u in t :: !IsPurgeRow(t[u], caseUid)
  }

  function RearmPurge(t: Table, caseUid: Uid, retentionUntil: Instant, target: Uid, at: Instant): Table {
    if target in t then t[target := ResetRow(t[target], retentionUntil)]
    else t[target := NewRow(RETENTION_QUEUE, PurgeCase(caseUid), Some(SupportCaseKey(caseUid)),
                            DEFAULT_MAX_ATTEMPTS, retentionUntil, at)]
  }

  /** The job table after an update with this outcome; only a closed case touches it. */
  function JobsAfterUpdate(t: Table, uid: Uid, updated: Case, target: Uid, at: Instant): Table {
    if updated.status == Closed && updated.retentionUntil.Some? then
      RearmPurge(t, uid, updated.retentionUntil.value, target, at)
    else t
  }

  /** What the handler tells the worker to do with the job. */
  datatype Verdict = Done | Later(at: Instant) | Failure

  function PurgeVerdict(cases: Cases, uid: Uid, at: Instant): Verdict {
    if uid !in cases then Done
    else if cases[uid].status != Closed || cases[uid].retentionUntil.None? then Done
    else if cases[uid].retentionUntil.value > at then Later(cases[uid].retentionUntil.value)
    else Done
  }

  predicate PurgeDeletes(cases: Cases, uid: Uid, at: Instant) {
    && uid in cases
    && cases[uid].status == Closed
    && cases[uid].retentionUntil.Some?
    && cases[uid].retentionUntil.value <= at
  }

  function CasesAfterPurge(cases: Cases, uid: Uid, at: Instant): Cases {
    if PurgeDeletes(cases, uid, at) then cases - {uid} else cases
  }

  /** An accepted update keeps the timestamps honest, whatever the transition. */
  lemma UpdateKeepsCaseOk(c: Case, status: Option<CaseStatus>, now: Instant)
    requires CaseOk(c)
    requires status.Some? ==> TransitionAllowed(c.status, status.value)
    ensures CaseOk(UpdatedCase(c, status, now))
    ensures UpdatedCase(c, status, now).status == Closed ==>
              UpdatedCase(c, status, now).closedAt.value == if c.status == Closed then c.closedAt.value else now
  {
  }

  /** The two tables behind the handlers that change them together. */
  class SupportDesk {
    var cases: Cases
    const store: BackgroundJobStore

    constructor (store: BackgroundJobStore)
      ensures cases == map[] && this.store == store
    {
      cases := map[];
      this.store := store;
    }

    /** The row that already has the case's deduplication key, or the new uid when there is none. */
    method UpsertRow(caseUid: Uid, newUid: Uid) returns (target: Uid)
      requires newUid !in store.jobs
      ensures UpsertTarget(store.jobs, caseUid, target)
      ensures target in store.jobs || target == newUid
    {
      var rest: set<Uid> := store.jobs.Keys;
      while rest != {}
        invariant rest <= store.jobs.Keys
        invariant forall u | u in store.jobs && u !in rest :: !IsPurgeRow(store.jobs[u], caseUid)
        decreases |rest|
      {
        var u :| u in rest;
        if IsPurgeRow(store.jobs[u], caseUid) {
          return u;
        }
        rest := rest - {u};
      }
      target := newUid;
    }

    method UpdateSupportCase(uid: Uid, expected: nat, status: Option<CaseStatus>, otherChange: bool,
                             now: Instant, newUid: Uid, at: Instant)
      returns (outcome: UpdateOutcome, target: Uid)
      requires newUid !in store.jobs
      modifies this, store
      ensures outcome == OutcomeOf(old(cases), uid, expected, status, otherChange, now)
      ensures outcome != Updated ==> cases == old(cases) && store.jobs == old(store.jobs)
      ensures UpsertTarget(old(store.jobs), uid, target) && (target in old(store.jobs) || target == newUid)
      ensures outcome == Updated ==>
                var updated := UpdatedCase(old(cases)[uid], status, now);
                && cases == old(cases)[uid := updated]
                && store.jobs == JobsAfterUpdate(old(store.jobs), uid, updated, target, at)
    {
      target := UpsertRow(uid, newUid);
      if uid !in cases {
        return CaseNotFound, target;
      }
      var record := cases[uid];
      if record.version != expected {
        return VersionConflict, target;
      }
      if status.Some? && !TransitionAllowed(record.status, status.value) {
        return InvalidTransition, target;
      }
      var changed := otherChange;
      if status.Some? && record.status != status.value {
        var previous := record.status;
        record := record.(status := status.value);
        changed := true;
        if status.value == Resolved {
          record := record.(resolvedAt := Some(now), closedAt := None, retentionUntil := None);
        } else if status.value == Closed {
          record := record.(closedAt := Some(now), retentionUntil := Some(now + RETENTION));
        } else if previous == Resolved || previous == Closed {
          record := record.(resolvedAt := None, closedAt := None, retentionUntil := None);
        }
      }
      if !changed {
        return Unchanged, target;
      }
      if record.status == Closed && record.retentionUntil.None? {
        return Failed, target;
      }
      record := record.(version := record.version + 1);
      cases := cases[uid := record];
      if record.status == Closed {
        if target in store.jobs {
          store.jobs := store.jobs[target := ResetRow(store.jobs[target], record.retentionUntil.value)];
        } else {
          store.jobs := store.jobs[target :=
            NewRow(RETENTION_QUEUE, PurgeCase(uid), Some(SupportCaseKey(uid)), DEFAULT_MAX_ATTEMPTS,
                   record.retentionUntil.value, at)];
        }
      }
      outcome := Updated;
    }

    method PurgeSupportCase(uid: Uid, at: Instant) returns (verdict: Verdict)
      modifies this
      ensures verdict == PurgeVerdict(old(cases), uid, at)
      ensures cases == CasesAfterPurge(old(cases), uid, at)
    {
      if uid !in cases {
        return Done;
      }
      var record := cases[uid];
      if record.status != Closed || record.retentionUntil.None? {
        return Done;
      }
      if record.retentionUntil.value > at {
        return Later(record.retentionUntil.value);
      }
      cases := cases - {uid};
      verdict := Done;
    }
  }
}
