/**
 Whole runs of workers, handlers and Support Case updates over the job and case tables.
 A run may interleave any number of workers; a crash only drops what a worker carries.
 */
module Retention {
  import opened Common
  import opened Jobs
  import opened SupportCases

  /** A job in a worker's hands, before and after its handler has decided. */
  datatype Flight = Working(job: Claimed) | Decided(job: Claimed, verdict: Verdict)

  datatype State = State(
    now: Instant,
    jobs: Table,
    cases: Cases,
    flights: map<Uid, Flight>,
    used: set<Uid>)

  /**
   `at` is the database clock at the step; choices the database makes are in the event. `appNow`, the stamp of a case
   update, is read by the server before its transaction commits.
   */
  datatype Event =
    | Claim(worker: Uid, queue: string, leaseSeconds: nat, lease: Uid, locked: set<Uid>,
            sweepAt: Instant, pick: Option<Uid>, at: Instant)
    | HandlePurge(worker: Uid, fails: bool, at: Instant)
    | HandleOther(worker: Uid, verdict: Verdict, at: Instant)
    | Finish(worker: Uid, retryAt: Instant, at: Instant)
    | Crash(worker: Uid, at: Instant)
    | OpenCase(caseUid: Uid, at: Instant)
    | UpdateCase(caseUid: Uid, expected: nat, status: Option<CaseStatus>, otherChange: bool,
                 appNow: Instant, target: Uid, at: Instant)
    | TouchCase(caseUid: Uid, at: Instant)
    | Replay(jobUid: Uid, at: Instant)
    | Cleanup(victims: set<Uid>, at: Instant)
    | Enqueue(jobUid: Uid, queue: string, name: string, key: Option<DedupKey>, maxAttempts: nat, at: Instant)

  function Init(now: Instant): State {
    State(now, map[], map[], map[], {})
  }

  predicate Updates(s: State, e: Event) {
    e.UpdateCase?
    && OutcomeOf(s.cases, e.caseUid, e.expected, e.status, e.otherChange, e.appNow) == Updated
  }

  function CaseAfter(s: State, e: Event): Case
    requires Updates(s, e)
  {
    UpdatedCase(s.cases[e.caseUid], e.status, e.appNow)
  }

  /** The update leaves the case closed, so it re-arms the purge job. */
  predicate Closes(s: State, e: Event, caseUid: Uid) {
    Updates(s, e) && e.caseUid == caseUid && CaseAfter(s, e).status == Closed
  }

  predicate Enabled(s: State, e: Event, skew: nat) {
    && s.now <= e.at
    && match e
       case Claim(worker, queue, leaseSeconds, lease, locked, sweepAt, pick, at) =>
         && worker !in s.flights && lease !in s.used && 1 <= leaseSeconds
         && s.now <= sweepAt <= at
         && FirstCandidate(Sweep(s.jobs, queue, sweepAt), s.jobs.Keys, queue, at, locked, pick)
       case HandlePurge(worker, fails, at) =>
         worker in s.flights && s.flights[worker].Working? && s.flights[worker].job.work.PurgeCase?
       case HandleOther(worker, verdict, at) =>
         worker in s.flights && s.flights[worker].Working? && s.flights[worker].job.work.OtherWork?
       case Finish(worker, retryAt, at) => worker in s.flights && s.flights[worker].Decided?
       case Crash(worker, at) => worker in s.flights
       case OpenCase(caseUid, at) => caseUid !in s.used
       case UpdateCase(caseUid, expected, status, otherChange, appNow, target, at) =>
         && at - skew <= appNow <= at + skew
         && UpsertTarget(s.jobs, caseUid, target)
         && (target in s.jobs || target !in s.used)
       case TouchCase(caseUid, at) => caseUid in s.cases
       case Replay(jobUid, at) => true
       case Cleanup(victims, at) =>
         forall u | u in victims ::
           u in s.jobs && s.jobs[u].status == Completed
           && s.jobs[u].completedAt.Some? && s.jobs[u].completedAt.value <= at - 7 * DAY
       case Enqueue(jobUid, queue, name, key, maxAttempts, at) =>
         && jobUid !in s.used && 1 <= maxAttempts <= 100
         && (key.Some? ==> key.value.OtherKey?)
         && forall u | u in s.jobs :: key.Some? ==> s.jobs[u].queue != queue || s.jobs[u].dedupKey != key
  }

  function FinishJobs(t: Table, f: Flight, retryAt: Instant, at: Instant): Table
    requires f.Decided?
  {
    match f.verdict
    case Done => CompleteInTable(t, f.job, at)
    case Later(when) => RescheduleInTable(t, f.job, when)
    case Failure => RetryInTable(t, f.job, retryAt, at)
  }

  /** How a worker ends an attempt; a lost lease is only logged. */
  method FinishJob(store: BackgroundJobStore, job: Claimed, verdict: Verdict, retryAt: Instant, at: Instant)
    modifies store
    ensures store.jobs == FinishJobs(old(store.jobs), Decided(job, verdict), retryAt, at)
  {
    if verdict == Failure {
      var _ := store.Retry(job, retryAt, at);
      return;
    }
    if verdict.Later? {
      var _ := store.Reschedule(job, verdict.at);
      return;
    }
    var _ := store.Complete(job, at);
  }

  function ClaimState(s: State, e: Event): (s': State)
    requires e.Claim?
    requires e.pick.Some? ==> e.pick.value in s.jobs
    ensures s'.now == e.at && s'.cases == s.cases && s.used <= s'.used
  {
    var swept := Sweep(s.jobs, e.queue, e.sweepAt);
    var expiresAt := e.at + e.leaseSeconds * SECOND;
    var jobs := LeaseInTable(swept, e.pick, e.lease, expiresAt);
    s.(now := e.at, jobs := jobs, used := s.used + {e.lease},
       flights := if e.pick.None? then s.flights
                  else s.flights[e.worker := Working(ClaimedCopy(jobs, e.pick.value, e.lease, expiresAt))])
  }

  function HandlePurgeState(s: State, e: Event): (s': State)
    requires e.HandlePurge? && e.worker in s.flights && s.flights[e.worker].job.work.PurgeCase?
    ensures s'.jobs == s.jobs && s'.used == s.used && s'.now == e.at
  {
    var job := s.flights[e.worker].job;
    if e.fails then s.(now := e.at, flights := s.flights[e.worker := Decided(job, Failure)])
    else s.(now := e.at,
            cases := CasesAfterPurge(s.cases, job.work.caseUid, e.at),
            flights := s.flights[e.worker := Decided(job, PurgeVerdict(s.cases, job.work.caseUid, e.at))])
  }

  function UpdateState(s: State, e: Event): State
    requires e.UpdateCase?
  {
    if Updates(s, e) then
      s.(now := e.at,
         cases := s.cases[e.caseUid := CaseAfter(s, e)],
         jobs := JobsAfterUpdate(s.jobs, e.caseUid, CaseAfter(s, e), e.target, e.at),
         used := s.used + {e.target})
    else s.(now := e.at)
  }

  function Apply(s: State, e: Event, skew: nat): State
    requires Enabled(s, e, skew)
  {
    match e
    case Claim(_, _, _, _, _, _, _, _) => ClaimState(s, e)
    case HandlePurge(_, _, _) => HandlePurgeState(s, e)
    case HandleOther(worker, verdict, at) =>
      s.(now := at, flights := s.flights[worker := Decided(s.flights[worker].job, verdict)])
    case Finish(worker, retryAt, at) =>
      s.(now := at, jobs := FinishJobs(s.jobs, s.flights[worker], retryAt, at), flights := s.flights - {worker})
    case Crash(worker, at) => s.(now := at, flights := s.flights - {worker})
    case OpenCase(caseUid, at) => s.(now := at, cases := s.cases[caseUid := NEW_CASE], used := s.used + {caseUid})
    case UpdateCase(_, _, _, _, _, _, _) => UpdateState(s, e)
    case TouchCase(caseUid, at) =>
      s.(now := at, cases := s.cases[caseUid := s.cases[caseUid].(version := s.cases[caseUid].version + 1)])
    case Replay(jobUid, at) => s.(now := at, jobs := ReplayInTable(s.jobs, jobUid, at))
    case Cleanup(victims, at) => s.(now := at, jobs := s.jobs - victims)
    case Enqueue(jobUid, queue, name, key, maxAttempts, at) =>
      s.(now := at, jobs := s.jobs[jobUid := NewRow(queue, OtherWork(name), key, maxAttempts, at, at)],
         used := s.used + {jobUid})
  }

  predicate Next(s: State, e: Event, s': State, skew: nat) {
    Enabled(s, e, skew) && s' == Apply(s, e, skew)
  }

  ghost predicate IsRun(ss: seq<State>, es: seq<Event>, skew: nat) {
    && |ss| == |es| + 1
    && ss[0] == Init(ss[0].now)
    && forall i | 0 <= i < |es| :: Next(ss[i], es[i], ss[i + 1], skew)
  }

  // ----- invariants -----

  predicate RowsOk(s: State) {
    forall u | u in s.jobs :: RowOk(s.jobs[u])
  }

  predicate CasesOk(s: State) {
    forall c | c in s.cases :: CaseOk(s.cases[c])
  }

  /** Purge work and purge keys name the same case. */
  predicate WorkMatchesKey(j: Job) {
    && (j.work.PurgeCase? ==> IsPurgeRow(j, j.work.caseUid))
    && (j.dedupKey.Some? && j.dedupKey.value.SupportCaseKey? ==> j.work == PurgeCase(j.dedupKey.value.caseUid))
  }

  predicate SameKey(a: Job, b: Job) {
    a.queue == b.queue && a.dedupKey.Some? && a.dedupKey == b.dedupKey
  }

  predicate KeysOk(s: State) {
    && (forall u | u in s.jobs :: WorkMatchesKey(s.jobs[u]))
    && (forall u, v | u in s.jobs && v in s.jobs && SameKey(s.jobs[u], s.jobs[v]) :: u == v)
  }

  predicate UidsOk(s: State) {
    && s.jobs.Keys <= s.used
    && s.cases.Keys <= s.used
    && (forall u | u in s.jobs ::
          && (s.jobs[u].leaseUid.Some? ==> s.jobs[u].leaseUid.value in s.used)
          && (s.jobs[u].work.PurgeCase? ==> s.jobs[u].work.caseUid in s.used))
    && (forall w | w in s.flights ::
          && s.flights[w].job.leaseUid in s.used
          && s.flights[w].job.uid in s.used
          && (s.flights[w].job.work.PurgeCase? ==> s.flights[w].job.work.caseUid in s.used))
  }

  /** While a worker's lease is current, its copy agrees with the row. */
  predicate CopyAgrees(t: Table, job: Claimed) {
    Holds(t, job.uid, job.leaseUid) ==>
      && t[job.uid].attempts == job.attempt
      && t[job.uid].maxAttempts == job.maxAttempts
      && t[job.uid].work == job.work
      && t[job.uid].queue == job.queue
      && t[job.uid].leaseExpiresAt == Some(job.leaseExpiresAt)
  }

  predicate FlightsOk(s: State) {
    forall w | w in s.flights :: CopyAgrees(s.jobs, s.flights[w].job)
  }

  predicate CaseClosed(s: State, caseUid: Uid) {
    caseUid in s.cases && s.cases[caseUid].status == Closed
  }

  predicate LivePurge(s: State, caseUid: Uid, u: Uid) {
    u in s.jobs && IsPurgeRow(s.jobs[u], caseUid) && s.jobs[u].status != Completed
  }

  /** No lost purge: a closed case always has a purge job that is not completed. */
  ghost predicate PurgesOk(s: State) {
    forall c | CaseClosed(s, c) :: exists u :: LivePurge(s, c, u)
  }

  /** A worker that decided to complete a purge job holds it only while the case is not closed. */
  predicate DoneNotClosed(s: State, f: Flight) {
    f.Decided? && f.verdict == Done && f.job.work.PurgeCase? && CaseClosed(s, f.job.work.caseUid) ==>
      !Holds(s.jobs, f.job.uid, f.job.leaseUid)
  }

  predicate DecisionsOk(s: State) {
    forall w | w in s.flights :: DoneNotClosed(s, s.flights[w])
  }

  ghost predicate Inv(s: State) {
    RowsOk(s) && CasesOk(s) && KeysOk(s) && UidsOk(s) && FlightsOk(s) && PurgesOk(s) && DecisionsOk(s)
  }
}
