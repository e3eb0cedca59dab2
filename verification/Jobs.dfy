/**
 The leased job queue of internal/store/background_jobs.go: the row state machine,
 the table-level effect of every statement, and the store whose methods run them.
 */
module Jobs {
  import opened Common

  datatype Status = Pending | Running | Completed | DeadLettered

  /** What a job does. Only the purge of one Support Case matters to other tables. */
  datatype Work = PurgeCase(caseUid: Uid) | OtherWork(name: string)

  datatype DedupKey = SupportCaseKey(caseUid: Uid) | OtherKey(name: string)

  datatype Job = Job(
    queue: string,
    work: Work,
    dedupKey: Option<DedupKey>,
    status: Status,
    attempts: nat,
    maxAttempts: nat,
    availableAt: Instant,
    leaseUid: Option<Uid>,
    leaseExpiresAt: Option<Instant>,
    createdAt: Instant,
    completedAt: Option<Instant>,
    deadLetteredAt: Option<Instant>)

  /** The copy of a row that a worker carries away from a claim. */
  datatype Claimed = Claimed(
    uid: Uid,
    queue: string,
    work: Work,
    attempt: nat,
    maxAttempts: nat,
    leaseUid: Uid,
    leaseExpiresAt: Instant)

  datatype JobError = InvalidQueue | InvalidLease | LeaseLost | NotFound | NotDeadLettered

  type Table = map<Uid, Job>

  const DEFAULT_MAX_ATTEMPTS: nat := 8

  predicate ValidQueue(queue: string) {
    && 1 <= |queue| <= 63
    && 'a' <= queue[0] <= 'z'
    && forall i | 1 <= i < |queue| ::
         'a' <= queue[i] <= 'z' || '0' <= queue[i] <= '9' || queue[i] == '_'
  }

  /** The table constraint that ties the nullable columns to the status. */
  predicate ColumnsMatchStatus(j: Job) {
    && (j.leaseUid.Some? <==> j.status == Running)
    && (j.leaseExpiresAt.Some? <==> j.status == Running)
    && (j.completedAt.Some? <==> j.status == Completed)
    && (j.deadLetteredAt.Some? <==> j.status == DeadLettered)
  }

  /** How the attempt counter is bounded in each status. */
  predicate AttemptsMatchStatus(j: Job) {
    && 1 <= j.maxAttempts <= 100
    && match j.status
       case Pending => j.attempts < j.maxAttempts
       case Running => 1 <= j.attempts <= j.maxAttempts
       case Completed => 1 <= j.attempts <= j.maxAttempts
       case DeadLettered => j.attempts == j.maxAttempts
  }

  predicate RowOk(j: Job) {
    ColumnsMatchStatus(j) && AttemptsMatchStatus(j)
  }

  // ----- one row -----

  predicate LeaseExpired(j: Job, at: Instant) {
    j.leaseExpiresAt.Some? && j.leaseExpiresAt.value <= at
  }

  /** An abandoned row with no attempt left. */
  predicate Exhausted(j: Job, queue: string, at: Instant) {
    j.queue == queue && j.status == Running && LeaseExpired(j, at) && j.attempts >= j.maxAttempts
  }

  predicate Eligible(j: Job, queue: string, at: Instant) {
    && j.queue == queue
    && j.availableAt <= at
    && j.attempts < j.maxAttempts
    && (j.status == Pending || (j.status == Running && LeaseExpired(j, at)))
  }

  function DeadLetterRow(j: Job, at: Instant): Job {
    j.(status := DeadLettered, leaseUid := None, leaseExpiresAt := None, deadLetteredAt := Some(at))
  }

  function LeaseRow(j: Job, leaseUid: Uid, expiresAt: Instant): Job {
    j.(status := Running, attempts := j.attempts + 1, leaseUid := Some(leaseUid),
       leaseExpiresAt := Some(expiresAt))
  }

  function CompleteRow(j: Job, at: Instant): Job {
    j.(status := Completed, leaseUid := None, leaseExpiresAt := None, completedAt := Some(at))
  }

  function RetryRow(j: Job, availableAt: Instant, at: Instant): Job {
    var spent := j.attempts >= j.maxAttempts;
    j.(status := if spent then DeadLettered else Pending,
       availableAt := if spent then j.availableAt else availableAt,
       leaseUid := None, leaseExpiresAt := None, completedAt := None,
       deadLetteredAt := if spent then Some(at) else None)
  }

  function RescheduleRow(j: Job, availableAt: Instant): Job {
    j.(status := Pending, attempts := if j.attempts >= 1 then j.attempts - 1 else 0,
       availableAt := availableAt, leaseUid := None, leaseExpiresAt := None,
       completedAt := None, deadLetteredAt := None)
  }

  /** Back to attempt zero: the effect of an operator replay and of a purge re-arm. */
  function ResetRow(j: Job, availableAt: Instant): Job {
    j.(status := Pending, attempts := 0, availableAt := availableAt, leaseUid := None,
       leaseExpiresAt := None, completedAt := None, deadLetteredAt := None)
  }

  function NewRow(queue: string, work: Work, key: Option<DedupKey>, maxAttempts: nat,
                  availableAt: Instant, at: Instant): Job
  {
    Job(queue, work, key, Pending, 0, maxAttempts, availableAt, None, None, at, None, None)
  }

  // ----- the whole table -----

  /** The first statement of a claim: every exhausted row of the queue is dead-lettered. */
  function Sweep(t: Table, queue: string, at: Instant): Table {
    map u | u in t :: if Exhausted(t[u], queue, at) then DeadLetterRow(t[u], at) else t[u]
  }

  /** The claim order: available_at, then created_at, then uid. */
  predicate Earlier(t: Table, u: Uid, v: Uid)
    requires u in t && v in t
  {
    || t[u].availableAt < t[v].availableAt
    || (t[u].availableAt == t[v].availableAt
        && (t[u].createdAt < t[v].createdAt || (t[u].createdAt == t[v].createdAt && u < v)))
  }

  predicate Candidate(t: Table, queue: string, at: Instant, locked: set<Uid>, u: Uid) {
    u in t && u !in locked && Eligible(t[u], queue, at)
  }

  /** `pick` is the first candidate among `among`, or nothing when there is none. */
  predicate FirstCandidate(t: Table, among: set<Uid>, queue: string, at: Instant, locked: set<Uid>,
                           pick: Option<Uid>)
  {
    match pick
    case None => forall u | u in among :: !Candidate(t, queue, at, locked, u)
    case Some(u) =>
      && u in among
      && Candidate(t, queue, at, locked, u)
      && forall v | v in among && v != u && Candidate(t, queue, at, locked, v) :: Earlier(t, u, v)
  }

  function LeaseInTable(t: Table, pick: Option<Uid>, leaseUid: Uid, expiresAt: Instant): Table
    requires pick.Some? ==> pick.value in t
  {
    if pick.None? then t else t[pick.value := LeaseRow(t[pick.value], leaseUid, expiresAt)]
  }

  function ClaimedCopy(t: Table, u: Uid, leaseUid: Uid, expiresAt: Instant): Claimed
    requires u in t
  {
    Claimed(u, t[u].queue, t[u].work, t[u].attempts, t[u].maxAttempts, leaseUid, expiresAt)
  }

  /** The guard of every finishing statement: the row still runs under this very lease. */
  predicate Holds(t: Table, uid: Uid, leaseUid: Uid) {
    uid in t && t[uid].status == Running && t[uid].leaseUid == Some(leaseUid)
  }

  function CompleteInTable(t: Table, job: Claimed, at: Instant): Table {
    if Holds(t, job.uid, job.leaseUid) then t[job.uid := CompleteRow(t[job.uid], at)] else t
  }

  function RetryInTable(t: Table, job: Claimed, availableAt: Instant, at: Instant): Table {
    if Holds(t, job.uid, job.leaseUid) then t[job.uid := RetryRow(t[job.uid], availableAt, at)] else t
  }

  function RescheduleInTable(t: Table, job: Claimed, availableAt: Instant): Table {
    if Holds(t, job.uid, job.leaseUid) then t[job.uid := RescheduleRow(t[job.uid], availableAt)] else t
  }

  function ReplayInTable(t: Table, uid: Uid, at: Instant): Table {
    if uid in t && t[uid].status == DeadLettered then t[uid := ResetRow(t[uid], at)] else t
  }

  // ----- single-call laws -----

  /** Every row effect keeps the table constraint and the attempt bounds. */
  lemma RowEffectsKeepRowOk(j: Job, queue: string, at: Instant, leaseUid: Uid, expiresAt: Instant, when: Instant)
    requires RowOk(j)
    ensures Exhausted(j, queue, at) ==> RowOk(DeadLetterRow(j, at))
    ensures Eligible(j, queue, at) ==> RowOk(LeaseRow(j, leaseUid, expiresAt))
    ensures j.status == Running ==>
              && RowOk(CompleteRow(j, at))
              && RowOk(RetryRow(j, when, at))
              && RowOk(RescheduleRow(j, when))
    ensures RowOk(ResetRow(j, when))
  {
  }

  /** The first instant from which a claim on the job's queue must act on the job. */
  function ActionableAt(j: Job): Instant
    requires RowOk(j) && (j.status == Pending || j.status == Running)
  {
    if j.status == Pending || j.leaseExpiresAt.value < j.availableAt then j.availableAt
    else j.leaseExpiresAt.value
  }

  /**
   No stranded job: after a known instant, a claim on the queue either dead-letters a
   pending or running job, or finds it eligible; if it then leases another row instead,
   that row precedes this one in the claim order (or this one is locked).
   */
  lemma NoStrandedJob(t: Table, u: Uid, queue: string, sweepAt: Instant, at: Instant,
                      locked: set<Uid>, pick: Option<Uid>)
    requires u in t && RowOk(t[u]) && t[u].queue == queue
    requires t[u].status == Pending || t[u].status == Running
    requires ActionableAt(t[u]) <= sweepAt <= at
    requires FirstCandidate(Sweep(t, queue, sweepAt), t.Keys, queue, at, locked, pick)
    ensures var swept := Sweep(t, queue, sweepAt);
            || swept[u].status == DeadLettered
            || (Eligible(swept[u], queue, at)
                && (u in locked || pick == Some(u) || (pick.Some? && Earlier(swept, pick.value, u))))
  {
    var swept := Sweep(t, queue, sweepAt);
    if u !in locked && !Exhausted(t[u], queue, sweepAt) {
      assert Candidate(swept, queue, at, locked, u);
    }
  }

  /** `background_jobs` behind its store; a clock reading is passed to each statement. */
  class BackgroundJobStore {
    var jobs: Table

    constructor ()
      ensures jobs == map[]
    {
      jobs := map[];
    }

    /** The least unlocked eligible row, passing over the rows other transactions hold. */
    static method FirstAvailable(t: Table, queue: string, at: Instant, locked: set<Uid>)
      returns (best: Option<Uid>)
      ensures FirstCandidate(t, t.Keys, queue, at, locked, best)
    {
      var rest: set<Uid> := t.Keys;
      best := None;
      while rest != {}
        invariant rest <= t.Keys
        invariant FirstCandidate(t, t.Keys - rest, queue, at, locked, best)
        decreases |rest|
      {
        var u :| u in rest;
        rest := rest - {u};
        if Candidate(t, queue, at, locked, u) && (best.None? || Earlier(t, u, best.value)) {
          best := Some(u);
        }
      }
      assert t.Keys - rest == t.Keys;
    }

    /**
     Leases the first unlocked candidate of the queue. `locked` are the rows other
     transactions hold, which SKIP LOCKED passes over.
     */
    method Claim(queue: string, leaseDuration: Duration, leaseUid: Uid, locked: set<Uid>,
                 sweepAt: Instant, at: Instant)
      returns (r: Result<Option<Claimed>, JobError>)
      modifies this
      ensures !ValidQueue(queue) ==> r == Err(InvalidQueue) && jobs == old(jobs)
      ensures ValidQueue(queue) && leaseDuration <= 0 ==> r == Err(InvalidLease) && jobs == old(jobs)
      ensures ValidQueue(queue) && leaseDuration > 0 ==>
                && r.Ok?
                && var swept := Sweep(old(jobs), queue, sweepAt);
                   var expiresAt := at + DurationSeconds(leaseDuration) * SECOND;
                   var pick := if r.value.Some? then Some(r.value.value.uid) else None;
                   && FirstCandidate(swept, swept.Keys, queue, at, locked, pick)
                   && jobs == LeaseInTable(swept, pick, leaseUid, expiresAt)
                   && (r.value.Some? ==> r.value.value == ClaimedCopy(jobs, pick.value, leaseUid, expiresAt))
      ensures ValidQueue(queue) && leaseDuration > 0 && r.value.Some? ==>
                at + leaseDuration <= r.value.value.leaseExpiresAt < at + leaseDuration + SECOND
    {
      if !ValidQueue(queue) {
        return Err(InvalidQueue);
      }
      if leaseDuration <= 0 {
        return Err(InvalidLease);
      }
      var expiresAt := at + DurationSeconds(leaseDuration) * SECOND;
      jobs := Sweep(jobs, queue, sweepAt);
      var best := FirstAvailable(jobs, queue, at, locked);
      if best.None? {
        return Ok(None);
      }
      jobs := jobs[best.value := LeaseRow(jobs[best.value], leaseUid, expiresAt)];
      r := Ok(Some(ClaimedCopy(jobs, best.value, leaseUid, expiresAt)));
    }

    method Complete(job: Claimed, at: Instant) returns (r: Result<(), JobError>)
      modifies this
      ensures jobs == CompleteInTable(old(jobs), job, at)
      ensures r == if Holds(old(jobs), job.uid, job.leaseUid) then Ok(()) else Err(LeaseLost)
    {
      if !Holds(jobs, job.uid, job.leaseUid) {
        return Err(LeaseLost);
      }
      jobs := jobs[job.uid := CompleteRow(jobs[job.uid], at)];
      r := Ok(());
    }

    /** The flag in the answer comes from the worker's copy, not from the row. */
    method Retry(job: Claimed, availableAt: Instant, at: Instant) returns (r: Result<bool, JobError>)
      modifies this
      ensures jobs == RetryInTable(old(jobs), job, availableAt, at)
      ensures r == if Holds(old(jobs), job.uid, job.leaseUid) then Ok(job.attempt >= job.maxAttempts)
                   else Err(LeaseLost)
    {
      if !Holds(jobs, job.uid, job.leaseUid) {
        return Err(LeaseLost);
      }
      jobs := jobs[job.uid := RetryRow(jobs[job.uid], availableAt, at)];
      r := Ok(job.attempt >= job.maxAttempts);
    }

    method Reschedule(job: Claimed, availableAt: Instant) returns (r: Result<(), JobError>)
      modifies this
      ensures jobs == RescheduleInTable(old(jobs), job, availableAt)
      ensures r == if Holds(old(jobs), job.uid, job.leaseUid) then Ok(()) else Err(LeaseLost)
    {
      if !Holds(jobs, job.uid, job.leaseUid) {
        return Err(LeaseLost);
      }
      jobs := jobs[job.uid := RescheduleRow(jobs[job.uid], availableAt)];
      r := Ok(());
    }

    method Replay(uid: Uid, at: Instant) returns (r: Result<(), JobError>)
      modifies this
      ensures jobs == ReplayInTable(old(jobs), uid, at)
      ensures r == if uid !in old(jobs) then Err(NotFound)
                   else if old(jobs)[uid].status != DeadLettered then Err(NotDeadLettered)
                   else Ok(())
    {
      if uid !in jobs {
        return Err(NotFound);
      }
      if jobs[uid].status != DeadLettered {
        return Err(NotDeadLettered);
      }
      jobs := jobs[uid := ResetRow(jobs[uid], at)];
      r := Ok(());
    }
  }
}
