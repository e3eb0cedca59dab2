/** When a key is granted, busy, replayed or refused, told from the grants and commits of the run alone. */
module IdempotencyLeases {
  import opened Common
  import opened Idempotency
  import opened IdempotencyRuns

  /** The Begin of step k was granted. */
  predicate GrantedAt(ss: seq<State>, es: seq<Event>, k: nat)
    requires k < |es| < |ss|
  {
    es[k].Begin? && es[k].lease in ss[k + 1].grants
  }

  function LeaseEnd(request: Request, at: Instant): Instant {
    at + DurationSeconds(request.leaseDuration) * SECOND
  }

  function RetentionEnd(request: Request, at: Instant): Instant {
    at + DurationSeconds(request.retention) * SECOND
  }

  predicate Committed(s: State, lease: Uid) {
    exists i | 0 <= i < |s.log| :: s.log[i].lease == lease
  }

  /** No Begin of the key is granted in steps i to k. */
  predicate NoGrantBetween(ss: seq<State>, es: seq<Event>, i: nat, k: nat, key: Key)
    requires k <= |es| < |ss|
  {
    forall n | i <= n < k :: GrantedAt(ss, es, n) ==> es[n].request.key != key
  }

  lemma LeaseEndsBeforeRetention(request: Request, at: Instant)
    requires ValidRequest(request)
    ensures at < LeaseEnd(request, at) <= RetentionEnd(request, at)
  {
    hide ValidKey;
    assert DurationSeconds(request.leaseDuration) <= DurationSeconds(request.retention);
  }

  /** The record this lease was granted, as its own grant stamped it. */
  predicate OwnRecord(s: State, request: Request, lease: Uid, at: Instant) {
    && request.key in s.records
    && var rec := s.records[request.key];
       rec.leaseUid == lease && rec.requestHash == request.hash
       && rec.leaseExpiresAt == LeaseEnd(request, at) && rec.expiresAt == RetentionEnd(request, at)
  }

  lemma GrantStamps(ss: seq<State>, es: seq<Event>, i: nat)
    requires IsRun(ss, es) && i < |es| && GrantedAt(ss, es, i)
    ensures OwnRecord(ss[i + 1], es[i].request, es[i].lease, es[i].at) && ValidRequest(es[i].request)
    ensures ss[i + 1].grants[es[i].lease] == Grant(es[i].request, es[i].at)
    ensures ss[i + 1].records[es[i].request.key].phase == Processing
  {
    hide ValidKey;
    assert Next(ss[i], es[i], ss[i + 1]);
  }

  /** The record stays this lease's until its retention ends or another Begin is granted. */
  lemma StepKeepsOwnRecord(s: State, e: Event, s': State, request: Request, lease: Uid, at: Instant)
    requires Next(s, e, s') && OwnRecord(s, request, lease, at)
    requires !(e.Begin? && e.request.key == request.key && e.lease in s'.grants)
    ensures OwnRecord(s', request, lease, at) || (request.key !in s'.records && RetentionEnd(request, at) <= s'.now)
  {
    hide ValidRequest;
  }

  lemma {:induction false} RecordStays(ss: seq<State>, es: seq<Event>, i: nat, k: nat)
    requires IsRun(ss, es) && i < k < |ss| && GrantedAt(ss, es, i)
             && NoGrantBetween(ss, es, i + 1, k, es[i].request.key)
    ensures var request := es[i].request;
            OwnRecord(ss[k], request, es[i].lease, es[i].at)
            || (request.key !in ss[k].records && RetentionEnd(request, es[i].at) <= ss[k].now)
  {
    hide Apply, Enabled, OwnRecord, ValidRequest;
    if k == i + 1 {
      GrantStamps(ss, es, i);
    } else {
      RecordStays(ss, es, i, k - 1);
      assert Next(ss[k - 1], es[k - 1], ss[k]);
      assert !(GrantedAt(ss, es, k - 1) && es[k - 1].request.key == es[i].request.key);
      if OwnRecord(ss[k - 1], es[i].request, es[i].lease, es[i].at) {
        StepKeepsOwnRecord(ss[k - 1], es[k - 1], ss[k], es[i].request, es[i].lease, es[i].at);
      } else {
        AbsentStays(ss[k - 1], es[k - 1], ss[k], es[i].request.key);
      }
    }
  }

  lemma AbsentStays(s: State, e: Event, s': State, key: Key)
    requires Next(s, e, s') && key !in s.records && !(e.Begin? && e.request.key == key && e.lease in s'.grants)
    ensures key !in s'.records && s.now <= s'.now
  {
    hide ValidRequest;
  }

  lemma {:induction false} LeaseIsExclusiveFrom(ss: seq<State>, es: seq<Event>, i: nat, j: nat)
    requires IsRun(ss, es) && i < j < |es| && GrantedAt(ss, es, i) && GrantedAt(ss, es, j)
    requires es[i].request.key == es[j].request.key && NoGrantBetween(ss, es, i + 1, j, es[i].request.key)
    ensures LeaseEnd(es[i].request, es[i].at) <= es[j].readAt
  {
    hide ValidKey;
    GrantStamps(ss, es, i);
    LeaseEndsBeforeRetention(es[i].request, es[i].at);
    RecordStays(ss, es, i, j);
    assert Next(ss[j], es[j], ss[j + 1]);
    NotGrantedYet(ss, es, j);
  }

  /** A fresh lease is in no earlier state's grants. */
  lemma NotGrantedYet(ss: seq<State>, es: seq<Event>, j: nat)
    requires IsRun(ss, es) && j < |es| && es[j].Begin?
    ensures es[j].lease !in ss[j].grants && ss[j].now <= es[j].readAt <= es[j].at == ss[j + 1].now
    ensures GrantedAt(ss, es, j) <==> Grants(ss[j].records, es[j].request, es[j].readAt)
    ensures GrantedAt(ss, es, j) <==> BeginAnswer(ss[j].records, es[j].request, es[j].readAt) == Ok(Granted)
  {
    hide ValidRequest;
    assert Next(ss[j], es[j], ss[j + 1]);
  }

  /**
   Lease authority: while a granted lease runs, no other Begin of its key is granted, whether or not the owner has
   completed or crashed.
   */
  lemma {:induction false} NoGrantWhileLeaseRuns(ss: seq<State>, es: seq<Event>, i: nat, j: nat)
    requires IsRun(ss, es) && i < j < |es| && GrantedAt(ss, es, i) && GrantedAt(ss, es, j)
    requires es[i].request.key == es[j].request.key
    ensures LeaseEnd(es[i].request, es[i].at) <= es[j].readAt
    decreases j - i
  {
    hide Next, ValidRequest;
    if NoGrantBetween(ss, es, i + 1, j, es[i].request.key) {
      LeaseIsExclusiveFrom(ss, es, i, j);
    } else {
      var n :| i + 1 <= n < j && GrantedAt(ss, es, n) && es[n].request.key == es[i].request.key;
      NoGrantWhileLeaseRuns(ss, es, i, n);
      InOrder(ss, es, n, j);
    }
  }

  lemma {:induction false} InOrder(ss: seq<State>, es: seq<Event>, n: nat, j: nat)
    requires IsRun(ss, es) && n < j < |es| && es[n].Begin? && es[j].Begin?
    ensures es[n].readAt <= es[j].readAt
  {
    hide Apply;
    assert Next(ss[n], es[n], ss[n + 1]) && Next(ss[j], es[j], ss[j + 1]);
    ClockRises(ss, es, n + 1, j);
    NotGrantedYet(ss, es, n);
    NotGrantedYet(ss, es, j);
  }

  lemma {:induction false} ClockRises(ss: seq<State>, es: seq<Event>, i: nat, j: nat)
    requires IsRun(ss, es) && i <= j < |ss|
    ensures ss[i].now <= ss[j].now
  {
    if i < j {
      ClockRises(ss, es, i, j - 1);
      assert Next(ss[j - 1], es[j - 1], ss[j]);
    }
  }

  /** A record is completed exactly when its lease has committed. */
  lemma CommittedIsCompleted(ss: seq<State>, es: seq<Event>, k: nat, key: Key, lease: Uid)
    requires IsRun(ss, es) && k < |ss| && key in ss[k].records && ss[k].records[key].leaseUid == lease
    ensures ss[k].records[key].phase == Completed <==> Committed(ss[k], lease)
    ensures ss[k].records[key].phase == Completed ==>
              exists n | 0 <= n < |ss[k].log| ::
                ss[k].log[n].lease == lease && ss[k].records[key].response == Some(ss[k].log[n].response)
  {
    hide Next, GrantsOk;
    ReachableInv(ss, es, k);
    var s := ss[k];
    assert RecordOk(s, key) && CompletedOk(s, key);
    if Committed(s, lease) {
      var n :| 0 <= n < |s.log| && s.log[n].lease == lease;
      assert CommitOk(s, s.log[n]);
    }
  }

  /**
   What a Begin is answered, told from the last grant of its key: granted once the lease has ended uncommitted or the
   retention has ended; refused within the retention if the hash differs; replayed if the lease committed; and else
   busy for exactly the rest of the lease.
   */
  lemma AnswerFollowsTheLastGrant(ss: seq<State>, es: seq<Event>, i: nat, k: nat)
    requires IsRun(ss, es) && i < k < |es| && GrantedAt(ss, es, i) && es[k].Begin?
    requires es[k].request.key == es[i].request.key && ValidRequest(es[k].request)
    requires NoGrantBetween(ss, es, i + 1, k, es[i].request.key)
    ensures var answer := BeginAnswer(ss[k].records, es[k].request, es[k].readAt);
            var granted, readAt := es[i].request, es[k].readAt;
            var same, committed := es[k].request.hash == granted.hash, Committed(ss[k], es[i].lease);
            && (answer == Ok(Granted) <==> GrantedAt(ss, es, k))
            && (RetentionEnd(granted, es[i].at) <= readAt ==> answer == Ok(Granted))
            && (readAt < RetentionEnd(granted, es[i].at) && !same ==>
                  answer == Err(Conflict))
            && (LeaseEnd(granted, es[i].at) <= readAt && same && !committed ==> answer == Ok(Granted))
            && (readAt < LeaseEnd(granted, es[i].at) && same && !committed ==>
                  answer == Ok(Busy(LeaseEnd(granted, es[i].at) - readAt)))
            && (readAt < RetentionEnd(granted, es[i].at) && same && committed ==>
                  exists n | 0 <= n < |ss[k].log| ::
                    ss[k].log[n].lease == es[i].lease && answer == Ok(Replayed(ss[k].log[n].response)))
  {
    hide ValidKey;
    GrantStamps(ss, es, i);
    LeaseEndsBeforeRetention(es[i].request, es[i].at);
    RecordStays(ss, es, i, k);
    NotGrantedYet(ss, es, k);
    if es[i].request.key in ss[k].records {
      CommittedIsCompleted(ss, es, k, es[i].request.key, es[i].lease);
    }
  }

  /** A key no Begin was granted before is granted to the first valid request, and to no invalid one. */
  lemma FirstBeginIsGranted(ss: seq<State>, es: seq<Event>, k: nat)
    requires IsRun(ss, es) && k < |es| && es[k].Begin? && NoGrantBetween(ss, es, 0, k, es[k].request.key)
    ensures var request := es[k].request;
            GrantedAt(ss, es, k)
            <==> && ValidKey(request.key) && 0 < request.leaseDuration <= 10 * MINUTE
                 && request.leaseDuration < request.retention <= 30 * DAY
  {
    hide ValidKey;
    NeverGranted(ss, es, k, es[k].request.key);
    NotGrantedYet(ss, es, k);
  }

  lemma {:induction false} NeverGranted(ss: seq<State>, es: seq<Event>, k: nat, key: Key)
    requires IsRun(ss, es) && k < |ss| && NoGrantBetween(ss, es, 0, k, key)
    ensures key !in ss[k].records
  {
    hide Apply, Enabled, ValidRequest;
    if k > 0 {
      NeverGranted(ss, es, k - 1, key);
      assert Next(ss[k - 1], es[k - 1], ss[k]);
      assert !(GrantedAt(ss, es, k - 1) && es[k - 1].request.key == key);
      AbsentStays(ss[k - 1], es[k - 1], ss[k], key);
    }
  }

  /**
   An owner commits exactly when it has not committed yet and no other Begin of its key has been granted since, however
   long ago its lease ended; only cleanup after the retention can take the record away as well.
   */
  lemma OwnerCommitsIff(ss: seq<State>, es: seq<Event>, i: nat, k: nat)
    requires IsRun(ss, es) && i < k < |es| && GrantedAt(ss, es, i) && es[k].Finish? && es[k].lease == es[i].lease
    ensures ss[k + 1].log == ss[k].log || ss[k + 1].log == ss[k].log + [Commit(es[k].lease, es[k].response)]
    ensures NoGrantBetween(ss, es, i + 1, k, es[i].request.key) && es[k].at < RetentionEnd(es[i].request, es[i].at) ==>
              (ss[k + 1].log != ss[k].log <==> !Committed(ss[k], es[i].lease))
    ensures !NoGrantBetween(ss, es, i + 1, k, es[i].request.key) ==> ss[k + 1].log == ss[k].log
  {
    hide ValidRequest;
    assert Next(ss[k], es[k], ss[k + 1]);
    GrantStamps(ss, es, i);
    GrantIsKept(ss, es, i, k);
    if NoGrantBetween(ss, es, i + 1, k, es[i].request.key) {
      RecordStays(ss, es, i, k);
      if es[i].request.key in ss[k].records {
        CommittedIsCompleted(ss, es, k, es[i].request.key, es[i].lease);
      }
    } else {
      SupersededOwnsNothing(ss, es, i, k);
    }
  }

  lemma {:induction false} GrantIsKept(ss: seq<State>, es: seq<Event>, i: nat, k: nat)
    requires IsRun(ss, es) && i < k < |ss| && GrantedAt(ss, es, i)
    ensures es[i].lease in ss[k].grants && ss[k].grants[es[i].lease] == Grant(es[i].request, es[i].at)
  {
    hide ValidRequest;
    if k == i + 1 {
      GrantStamps(ss, es, i);
    } else {
      GrantIsKept(ss, es, i, k - 1);
      assert Next(ss[k - 1], es[k - 1], ss[k]);
    }
  }

  /** Once another Begin of the key has been granted, the record never carries the old lease again. */
  lemma {:induction false} SupersededOwnsNothing(ss: seq<State>, es: seq<Event>, i: nat, k: nat)
    requires IsRun(ss, es) && i < k < |ss| && GrantedAt(ss, es, i)
    requires !NoGrantBetween(ss, es, i + 1, k, es[i].request.key)
    ensures !Owns(ss[k].records, es[i].request.key, es[i].lease)
  {
    hide ValidRequest;
    assert Next(ss[k - 1], es[k - 1], ss[k]);
    GrantIsKept(ss, es, i, k - 1);
    if GrantedAt(ss, es, k - 1) && es[k - 1].request.key == es[i].request.key {
      GrantStamps(ss, es, k - 1);
      NotGrantedYet(ss, es, k - 1);
    } else {
      SupersededOwnsNothing(ss, es, i, k - 1);
    }
  }
}
