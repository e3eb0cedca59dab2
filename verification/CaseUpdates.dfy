/** What a Support Case update does, in the columns of the case and the fields of the request, over whole runs. */
module CaseUpdates {
  import opened Common
  import opened Jobs
  import opened SupportCases
  import opened Retention
  import opened RetentionProofs
  import opened RetentionRuns

  /** Step k is an update that writes the row of this case. */
  predicate Writes(ss: seq<State>, es: seq<Event>, k: nat, c: Uid)
    requires k < |es| < |ss|
  {
    && es[k].UpdateCase? && es[k].caseUid == c
    && c in ss[k].cases && c in ss[k + 1].cases && ss[k + 1].cases[c] != ss[k].cases[c]
  }

  /**
   The moves between statuses: an unresolved case may go anywhere, a resolved one back or on, a closed one only
   back.
   */
  predicate Move(from: CaseStatus, to: CaseStatus) {
    match from
    case Resolved => to == Open || to == Closed
    case Closed => to == Open
    case _ => to != from
  }

  lemma MovesAreTheTable(from: CaseStatus, to: CaseStatus)
    ensures TransitionAllowed(from, to) <==> from == to || Move(from, to)
  {
  }

  /**
   An update writes the case exactly when the caller has its current version, asks for an allowed status and changes
   something; otherwise it writes nothing at all.
   */
  lemma UpdateWritesIff(ss: seq<State>, es: seq<Event>, skew: nat, k: nat, c: Uid)
    requires IsRun(ss, es, skew) && k < |es| && es[k].UpdateCase? && es[k].caseUid == c
    ensures Writes(ss, es, k, c)
            <==> && c in ss[k].cases && ss[k].cases[c].version == es[k].expected
                 && (es[k].status.Some? ==>
                       es[k].status.value == ss[k].cases[c].status || Move(ss[k].cases[c].status, es[k].status.value))
                 && (es[k].otherChange || (es[k].status.Some? && es[k].status.value != ss[k].cases[c].status))
    ensures !Writes(ss, es, k, c) ==> ss[k + 1].cases == ss[k].cases && ss[k + 1].jobs == ss[k].jobs
    ensures Writes(ss, es, k, c) ==> ss[k + 1].cases == ss[k].cases[c := ss[k + 1].cases[c]]
  {
    hide FirstCandidate, Sweep;
    assert Next(ss[k], es[k], ss[k + 1], skew);
    if c in ss[k].cases {
      ReachableCaseOk(ss, es, skew, k, c);
      if es[k].status.Some? {
        MovesAreTheTable(ss[k].cases[c].status, es[k].status.value);
      }
    }
  }

  /** The columns an update writes. */
  lemma UpdateWrites(ss: seq<State>, es: seq<Event>, skew: nat, k: nat, c: Uid)
    requires IsRun(ss, es, skew) && k < |es| && Writes(ss, es, k, c)
    ensures var before, after, e := ss[k].cases[c], ss[k + 1].cases[c], es[k];
            && before.version == e.expected && after.version == e.expected + 1
            && after.status == (if e.status.Some? then e.status.value else before.status)
            && (after.status != before.status ==> Move(before.status, after.status))
            && (after.status == before.status ==>
                  after.resolvedAt == before.resolvedAt && after.closedAt == before.closedAt
                  && after.retentionUntil == before.retentionUntil)
            && (after.status == Closed && before.status != Closed ==>
                  after.closedAt == Some(e.appNow) && after.retentionUntil == Some(e.appNow + 365 * DAY)
                  && after.resolvedAt == before.resolvedAt)
            && (after.status == Resolved && before.status != Resolved ==>
                  after.resolvedAt == Some(e.appNow) && after.closedAt.None? && after.retentionUntil.None?)
            && (after.status != Closed && after.status != Resolved ==>
                  after.resolvedAt.None? && after.closedAt.None? && after.retentionUntil.None?)
  {
    hide FirstCandidate, Sweep;
    assert Next(ss[k], es[k], ss[k + 1], skew);
    ReachableCaseOk(ss, es, skew, k, c);
    if es[k].status.Some? {
      MovesAreTheTable(ss[k].cases[c].status, es[k].status.value);
    }
  }

  /** The version of a case never falls, and rises with every change of its row. */
  lemma StepRaisesVersion(s: State, e: Event, s': State, skew: nat, c: Uid)
    requires UidsOk(s) && CasesOk(s) && Next(s, e, s', skew) && c in s.used
    ensures c in s'.used
    ensures c in s'.cases ==> c in s.cases && s.cases[c].version <= s'.cases[c].version
    ensures c in s'.cases && s'.cases[c] != s.cases[c] ==> s.cases[c].version < s'.cases[c].version
  {
    hide FirstCandidate, Sweep, ClaimState;
  }

  lemma {:induction false} VersionsRise(ss: seq<State>, es: seq<Event>, skew: nat, i: nat, j: nat, c: Uid)
    requires IsRun(ss, es, skew) && i <= j < |ss| && c in ss[i].cases && c in ss[j].cases
    ensures ss[i].cases[c].version <= ss[j].cases[c].version
    decreases j
  {
    hide Next, UidsOk, CasesOk;
    if i < j {
      CaseUidUsed(ss, es, skew, i, c);
      UsedGrows(ss, es, skew, i, j - 1);
      ReachableInv(ss, es, skew, j - 1);
      StepRaisesVersion(ss[j - 1], es[j - 1], ss[j], skew, c);
      VersionsRise(ss, es, skew, i, j - 1, c);
    }
  }

  lemma CaseUidUsed(ss: seq<State>, es: seq<Event>, skew: nat, i: nat, c: Uid)
    requires IsRun(ss, es, skew) && i < |ss| && c in ss[i].cases
    ensures c in ss[i].used
  {
    hide Next;
    ReachableInv(ss, es, skew, i);
  }

  /**
   No lost update: of two updates that write the same case the later one was made by a caller that had seen a later
   version, so no update is overwritten by a caller that had not seen it.
   */
  lemma NoLostUpdate(ss: seq<State>, es: seq<Event>, skew: nat, i: nat, j: nat, c: Uid)
    requires IsRun(ss, es, skew) && i < j < |es| && Writes(ss, es, i, c) && Writes(ss, es, j, c)
    ensures ss[i].cases[c].version == es[i].expected < es[j].expected == ss[j].cases[c].version
  {
    hide Next;
    UpdateWrites(ss, es, skew, i, c);
    UpdateWrites(ss, es, skew, j, c);
    VersionsRise(ss, es, skew, i + 1, j, c);
  }

  /** What each answer of the handler says about the row and the request. */
  lemma AnswerSaysWhy(cases: Cases, c: Uid, expected: nat, status: Option<CaseStatus>, otherChange: bool, now: Instant)
    requires c in cases ==> CaseOk(cases[c])
    ensures var answer := OutcomeOf(cases, c, expected, status, otherChange, now);
            && (answer == CaseNotFound <==> c !in cases)
            && (answer == VersionConflict <==> c in cases && cases[c].version != expected)
            && (answer == InvalidTransition
                <==> && c in cases && cases[c].version == expected && status.Some?
                     && status.value != cases[c].status && !Move(cases[c].status, status.value))
            && (answer == Unchanged
                <==> && c in cases && cases[c].version == expected && !otherChange
                     && (status.None? || status.value == cases[c].status))
            && answer != Failed
  {
    if c in cases && status.Some? {
      MovesAreTheTable(cases[c].status, status.value);
    }
  }
}
