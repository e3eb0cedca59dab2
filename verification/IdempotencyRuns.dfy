/**
 Whole runs of the idempotency protocol. Any granted owner may commit at any later time, or
 never (a crash), however late it is; cleanup may remove any expired records at any time.
 */
module IdempotencyRuns {
  import opened Common
  import opened Idempotency

  /** A Begin that was granted: for which request, and when its record was stamped. */
  datatype Grant = Grant(request: Request, at: Instant)

  /** A completing commit; a domain mutation, if there is one, is part of the same transaction. */
  datatype Commit = Commit(lease: Uid, response: Response)

  /** `grants` and `log` are history; the protocol itself never reads them. */
  datatype State = State(now: Instant, records: Records, grants: map<Uid, Grant>, log: seq<Commit>)

  datatype Event =
    | Begin(request: Request, lease: Uid, readAt: Instant, at: Instant)
    | Finish(lease: Uid, response: Response, at: Instant)
    | Cleanup(victims: set<Key>, at: Instant)

  predicate Enabled(s: State, e: Event) {
    && s.now <= e.at
    && match e
       case Begin(request, lease, readAt, at) => lease !in s.grants && s.now <= readAt <= at
       case Finish(lease, response, at) => lease in s.grants
       case Cleanup(victims, at) => forall k | k in victims :: Expired(s.records, k, at)
  }

  function Apply(s: State, e: Event): State
    requires Enabled(s, e)
  {
    match e
    case Begin(request, lease, readAt, at) =>
      s.(now := at,
         records := BeginRecords(s.records, request, lease, readAt, at),
         grants := if Grants(s.records, request, readAt) then s.grants[lease := Grant(request, at)] else s.grants)
    case Finish(lease, response, at) =>
      var key := s.grants[lease].request.key;
      if Owns(s.records, key, lease) then
        s.(now := at,
           records := CompleteRecords(s.records, key, lease, response, at),
           log := s.log + [Commit(lease, response)])
      else s.(now := at)
    case Cleanup(victims, at) => s.(now := at, records := s.records - victims)
  }

  predicate Next(s: State, e: Event, s': State) {
    Enabled(s, e) && s' == Apply(s, e)
  }

  ghost predicate IsRun(ss: seq<State>, es: seq<Event>) {
    && |ss| == |es| + 1
    && ss[0] == State(ss[0].now, map[], map[], [])
    && forall i | 0 <= i < |es| :: Next(ss[i], es[i], ss[i + 1])
  }

  function Lifetime(g: Grant): Duration {
    DurationSeconds(g.request.retention) * SECOND
  }

  /** Every record was stamped by the grant of the lease it carries. */
  predicate RecordOk(s: State, k: Key) {
    k in s.records ==>
      && s.records[k].leaseUid in s.grants
      && var g := s.grants[s.records[k].leaseUid];
         && g.request.key == k
         && g.request.hash == s.records[k].requestHash
         && s.records[k].expiresAt == g.at + Lifetime(g)
         && g.at <= s.now
         && (s.records[k].response.Some? <==> s.records[k].phase == Completed)
  }

  /** The commit's record still stands, or its retention has passed and nothing granted before that remains. */
  predicate CommitOk(s: State, c: Commit) {
    && c.lease in s.grants
    && var g := s.grants[c.lease];
       var k := g.request.key;
       if k in s.records && s.records[k].leaseUid == c.lease then
         s.records[k].phase == Completed && s.records[k].response == Some(c.response)
       else
         && g.at + Lifetime(g) <= s.now
         && (k in s.records ==>
               s.records[k].leaseUid in s.grants && g.at + Lifetime(g) <= s.grants[s.records[k].leaseUid].at)
  }

  predicate GrantsOk(s: State) {
    forall l | l in s.grants :: ValidRequest(s.grants[l].request)
  }

  /** A completed record's response came from exactly one commit. */
  ghost predicate CompletedOk(s: State, k: Key) {
    k in s.records && s.records[k].phase == Completed ==>
      exists i | 0 <= i < |s.log| :: s.log[i].lease == s.records[k].leaseUid
  }

  /** Commits of the same key are a full retention apart, counted between the grants. */
  predicate ApartOk(s: State, i: nat, j: nat)
    requires i < |s.log| && j < |s.log|
    requires s.log[i].lease in s.grants && s.log[j].lease in s.grants
  {
    var gi, gj := s.grants[s.log[i].lease], s.grants[s.log[j].lease];
    gi.request.key == gj.request.key ==> gi.at + Lifetime(gi) <= gj.at
  }

  ghost predicate Inv(s: State) {
    && GrantsOk(s)
    && (forall k :: RecordOk(s, k))
    && (forall k :: CompletedOk(s, k))
    && (forall i | 0 <= i < |s.log| :: CommitOk(s, s.log[i]))
    && (forall i, j | 0 <= i < j < |s.log| :: ApartOk(s, i, j))
  }

  lemma StepKeepsRecord(s: State, e: Event, s': State, k: Key)
    requires Next(s, e, s') && RecordOk(s, k)
    ensures RecordOk(s', k)
  {
  }

  lemma StepKeepsCompleted(s: State, e: Event, s': State, k: Key)
    requires Next(s, e, s') && CompletedOk(s, k) && RecordOk(s, k)
    ensures CompletedOk(s', k)
  {
    if k in s'.records && s'.records[k].phase == Completed {
      if k in s.records && s.records[k].phase == Completed && s.records[k] == s'.records[k] {
        var i :| 0 <= i < |s.log| && s.log[i].lease == s.records[k].leaseUid;
        assert s'.log[i].lease == s'.records[k].leaseUid;
      } else {
        assert s'.log[|s.log|].lease == s'.records[k].leaseUid;
      }
    }
  }

  lemma StepKeepsCommit(s: State, e: Event, s': State, c: Commit)
    requires Next(s, e, s') && CommitOk(s, c) && GrantsOk(s)
    requires RecordOk(s, s.grants[c.lease].request.key)
    ensures CommitOk(s', c)
  {
    hide ValidKey;
  }

  lemma NewCommitOk(s: State, e: Event, s': State)
    requires Next(s, e, s') && |s'.log| > |s.log|
    ensures CommitOk(s', s'.log[|s.log|])
  {
  }

  /** A commit that succeeds now comes from a grant made after every earlier commit's retention. */
  lemma NewCommitApart(s: State, e: Event, s': State, i: nat)
    requires Inv(s) && Next(s, e, s') && |s'.log| > |s.log| && i < |s.log|
    ensures s'.log[i].lease in s'.grants && s'.log[|s.log|].lease in s'.grants
    ensures ApartOk(s', i, |s.log|)
  {
    assert CommitOk(s, s.log[i]);
  }

  lemma StepKeepsInv(s: State, e: Event, s': State)
    requires Inv(s) && Next(s, e, s')
    ensures Inv(s')
  {
    hide ValidKey;
    forall k ensures RecordOk(s', k) && CompletedOk(s', k) {
      StepKeepsRecord(s, e, s', k);
      StepKeepsCompleted(s, e, s', k);
    }
    forall i | 0 <= i < |s'.log| ensures CommitOk(s', s'.log[i]) {
      if i < |s.log| {
        StepKeepsCommit(s, e, s', s.log[i]);
      } else {
        NewCommitOk(s, e, s');
      }
    }
    forall i, j | 0 <= i < j < |s'.log| ensures ApartOk(s', i, j) {
      if j < |s.log| {
        assert ApartOk(s, i, j) && CommitOk(s, s.log[i]) && CommitOk(s, s.log[j]);
      } else {
        NewCommitApart(s, e, s', i);
      }
    }
  }

  lemma {:induction false} ReachableInv(ss: seq<State>, es: seq<Event>, i: nat)
    requires IsRun(ss, es) && i < |ss|
    ensures Inv(ss[i])
  {
    hide Apply, Enabled;
    if i > 0 {
      ReachableInv(ss, es, i - 1);
      StepKeepsInv(ss[i - 1], es[i - 1], ss[i]);
    }
  }

  /**
   Exactly once: over any run, if two transactions commit under the same key, with or without domain mutations in
   them, the Begin that granted the second happened at least the first claim's whole retention after the Begin that
   granted the first.
   */
  lemma MutationsAreRetentionApart(ss: seq<State>, es: seq<Event>, n: nat, i: nat, j: nat)
    requires IsRun(ss, es) && n < |ss| && i < j < |ss[n].log|
    ensures ss[n].log[i].lease in ss[n].grants && ss[n].log[j].lease in ss[n].grants
    ensures var first, second := ss[n].grants[ss[n].log[i].lease], ss[n].grants[ss[n].log[j].lease];
            first.request.key == second.request.key ==> first.at + first.request.retention <= second.at
  {
    ReachableInv(ss, es, n);
    assert CommitOk(ss[n], ss[n].log[i]) && CommitOk(ss[n], ss[n].log[j]);
    assert ApartOk(ss[n], i, j) && GrantsOk(ss[n]);
  }

  /** Both transactions of these runs commit under the request's key. */
  predicate TwoCommits(s: State, request: Request) {
    && |s.log| == 2 && s.log[0].lease in s.grants && s.log[1].lease in s.grants
    && s.grants[s.log[0].lease].request == request && s.grants[s.log[1].lease].request == request
  }

  /** The bound is exact: the key is free again as soon as the stored retention, rounded up to seconds, has passed. */
  lemma RetentionIsReached(request: Request, response: Response) returns (ss: seq<State>, es: seq<Event>)
    requires ValidRequest(request)
    ensures IsRun(ss, es) && |es| == 4 && TwoCommits(ss[4], request)
    ensures ss[4].grants[ss[4].log[1].lease].at
            == ss[4].grants[ss[4].log[0].lease].at + DurationSeconds(request.retention) * SECOND
  {
    hide ValidRequest;
    var again := DurationSeconds(request.retention) * SECOND;
    es := [Begin(request, 0, 0, 0), Finish(0, response, 0), Begin(request, 1, again, again),
        Finish(1, response, again)];
    var s0 := State(0, map[], map[], []);
    var s1 := Apply(s0, es[0]);
    var s2 := Apply(s1, es[1]);
    var s3 := Apply(s2, es[2]);
    var s4 := Apply(s3, es[3]);
    ss := [s0, s1, s2, s3, s4];
  }

  /** Every entry of the log belongs to a grant, and no lease appears twice in it. */
  lemma LogIsOneCommitPerLease(ss: seq<State>, es: seq<Event>, n: nat)
    requires IsRun(ss, es) && n < |ss|
    ensures forall i | 0 <= i < |ss[n].log| :: ss[n].log[i].lease in ss[n].grants
    ensures forall i, j | 0 <= i < j < |ss[n].log| :: ss[n].log[i].lease != ss[n].log[j].lease
  {
    ReachableInv(ss, es, n);
    forall i | 0 <= i < |ss[n].log| ensures ss[n].log[i].lease in ss[n].grants {
      assert CommitOk(ss[n], ss[n].log[i]);
    }
    forall i, j | 0 <= i < j < |ss[n].log| ensures ss[n].log[i].lease != ss[n].log[j].lease {
      assert ApartOk(ss[n], i, j);
      assert GrantsOk(ss[n]);
    }
  }

  /**
   Faithful replay: a replayed response is the one stored by the single commit of the record's
   lease, whose request hash is the caller's; a request with another hash is refused for as
   long as the record is unexpired.
   */
  lemma ReplayIsTheCommit(ss: seq<State>, es: seq<Event>, n: nat, request: Request, readAt: Instant)
    requires IsRun(ss, es) && n < |ss| && ss[n].now <= readAt && ValidRequest(request)
    requires request.key in ss[n].records && ss[n].records[request.key].expiresAt > readAt
    ensures ss[n].records[request.key].requestHash != request.hash ==>
              BeginAnswer(ss[n].records, request, readAt) == Err(Conflict)
    ensures BeginAnswer(ss[n].records, request, readAt) != Err(MissingResponse)
    ensures forall response | BeginAnswer(ss[n].records, request, readAt) == Ok(Replayed(response)) ::
              exists i | 0 <= i < |ss[n].log| ::
                && ss[n].log[i].response == response
                && ss[n].log[i].lease == ss[n].records[request.key].leaseUid
                && ss[n].log[i].lease in ss[n].grants
                && ss[n].grants[ss[n].log[i].lease].request.hash == request.hash
                && forall j | 0 <= j < |ss[n].log| && ss[n].log[j].lease == ss[n].log[i].lease :: j == i
  {
    ReachableInv(ss, es, n);
    LogIsOneCommitPerLease(ss, es, n);
    var s, k := ss[n], request.key;
    assert RecordOk(s, k) && CompletedOk(s, k);
    if s.records[k].phase == Completed {
      var i :| 0 <= i < |s.log| && s.log[i].lease == s.records[k].leaseUid;
      assert CommitOk(s, s.log[i]);
    }
  }

  lemma CompletedStepStable(s: State, e: Event, s': State, k: Key)
    requires Next(s, e, s') && k in s.records
    requires s.records[k].phase == Completed && s'.now < s.records[k].expiresAt
    ensures k in s'.records && s'.records[k] == s.records[k]
  {
  }

  /** Once completed, a record does not change until it expires: no superseded owner can touch it. */
  lemma {:induction false} CompletedIsFrozen(ss: seq<State>, es: seq<Event>, i: nat, j: nat, k: Key)
    requires IsRun(ss, es) && i <= j < |ss| && k in ss[i].records
    requires ss[i].records[k].phase == Completed && ss[j].now < ss[i].records[k].expiresAt
    ensures k in ss[j].records && ss[j].records[k] == ss[i].records[k]
  {
    if i < j {
      assert Next(ss[j - 1], es[j - 1], ss[j]);
      CompletedIsFrozen(ss, es, i, j - 1, k);
      CompletedStepStable(ss[j - 1], es[j - 1], ss[j], k);
    }
  }
}
