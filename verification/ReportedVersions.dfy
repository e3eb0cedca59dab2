/**
 The policy version a decision reports is read by the bearer check; the capability rows come from a later statement.
 When the version names the rows, and a run in which it does not.
 */
module ReportedVersions {
  import opened Common
  import opened Policies
  import opened Authorization
  import opened AuthorizationProofs
  import opened AuthorizationRuns
  import opened Decisions
  import opened SampleRun

  function VersionOf(db: Db, server: Uid): nat
    requires server in db.policy.servers
  {
    db.policy.servers[server].policyVersion
  }

  /** A decision for token t: the bearer check in state i, the capability query in state j, answered with `rows`. */
  ghost predicate IsDecision(dbs: seq<Db>, i: nat, j: nat, t: Uid, now: Instant, rows: seq<(Uid, Uid)>) {
    i <= j < |dbs| && Live(dbs[i], t, now) && IsAnswer(dbs[j], dbs[i].tokens[t].issue, rows)
  }

  function Reported(db: Db, t: Uid, now: Instant): nat
    requires Live(db, t, now)
  {
    VersionOf(db, db.tokens[t].issue.terms.server.value)
  }

  /** A step commits a change of the server's policy. */
  predicate Touches(db: Db, e: Event, server: Uid) {
    e.Manage? && Accepted(db.policy, e.change) && Bumped(db.policy, e.change) == Some(server)
  }

  lemma ManagementMovesVersion(db: Db, c: Change, at: Instant, server: Uid)
    requires Inv(db) && (Creates(c) ==> c.uid !in db.used) && server in db.policy.servers
    ensures server in ManageDb(db, c, at).policy.servers
    ensures VersionOf(ManageDb(db, c, at), server)
            == VersionOf(db, server) + if Accepted(db.policy, c) && Bumped(db.policy, c) == Some(server) then 1 else 0
  {
    hide PolicyOk, TokensCovered, ChainOk, Accepted, Changed, Revokes, Revoke, FreshFor, Bumped;
    if Accepted(db.policy, c) {
      FreshUid(db.policy, db.used, c);
      VersionsMove(db.policy, c, server);
    }
  }

  lemma StepMovesVersion(db: Db, e: Event, db': Db, server: Uid)
    requires Inv(db) && Next(db, e, db') && server in db.policy.servers
    ensures server in db'.policy.servers
    ensures VersionOf(db', server) == VersionOf(db, server) + if Touches(db, e, server) then 1 else 0
  {
    hide Inv, Accepted, Bumped, ManageDb, AuthorizeDb, DecideDb, ExchangeDb, Revoke, ConsumeCodesOf;
    if e.Manage? {
      ManagementMovesVersion(db, e.change, e.at, server);
    }
  }

  /** The version stands still between two moments exactly when no step in between changes the server's policy. */
  lemma {:induction false} VersionStandsStillIffUntouched(dbs: seq<Db>, es: seq<Event>, i: nat, j: nat, server: Uid)
    requires IsRun(dbs, es) && i <= j < |dbs| && server in dbs[i].policy.servers
    ensures server in dbs[j].policy.servers && VersionOf(dbs[i], server) <= VersionOf(dbs[j], server)
    ensures VersionOf(dbs[i], server) == VersionOf(dbs[j], server)
            <==> forall k | i <= k < j :: !Touches(dbs[k], es[k], server)
  {
    hide Next, Inv, Touches;
    if i < j {
      VersionStandsStillIffUntouched(dbs, es, i, j - 1, server);
      ReachableInv(dbs, es, j - 1);
      StepMovesVersion(dbs[j - 1], es[j - 1], dbs[j], server);
    }
  }

  /**
   The reported version names the rows: two decisions for tokens with the same member and terms, in each of which no
   change of the server falls between check and query, report the same version only if their queries have the same
   answers, as long as application and member are as live at both queries.
   */
  lemma ReportedVersionNamesTheRows(dbs: seq<Db>, es: seq<Event>, i: nat, j: nat, i': nat, j': nat, t: Uid, t': Uid,
                                    now: Instant, now': Instant, rows: seq<(Uid, Uid)>)
    requires IsRun(dbs, es) && i <= j < |dbs| && i' <= j' < |dbs| && Live(dbs[i], t, now) && Live(dbs[i'], t', now')
    requires dbs[i].tokens[t].issue == dbs[i'].tokens[t'].issue
    requires Reported(dbs[i], t, now) == Reported(dbs[i'], t', now')
    requires var issue := dbs[i].tokens[t].issue;
             var server := issue.terms.server.value;
             && (forall k | i <= k < j :: !Touches(dbs[k], es[k], server))
             && (forall k | i' <= k < j' :: !Touches(dbs[k], es[k], server))
             && (AppLive(dbs[j].policy, issue.terms.app) <==> AppLive(dbs[j'].policy, issue.terms.app))
             && (MemberActive(dbs[j], issue.member) <==> MemberActive(dbs[j'], issue.member))
    ensures IsDecision(dbs, i, j, t, now, rows) <==> IsDecision(dbs, i', j', t', now', rows)
  {
    hide Next, Touches, IsAnswer;
    var issue := dbs[i].tokens[t].issue;
    VersionStandsStillIffUntouched(dbs, es, i, j, issue.terms.server.value);
    VersionStandsStillIffUntouched(dbs, es, i', j', issue.terms.server.value);
    SameVersionSameCapabilities(dbs, es, j, j', issue, rows);
  }

  // ----- when a change does fall in between -----

  /** Without a live grant the query has no rows. */
  lemma NoGrantNoRows(db: Db, issue: TokenIssue)
    requires issue.terms.server.Some?
    requires forall g :: !GrantLive(db.policy, g, issue.terms.app, issue.terms.server.value)
    ensures IsAnswer(db, issue, [])
  {
    assert forall row :: !IsRow(db, issue, row);
  }

  /**
   Whenever a live token has capabilities, deleting its grant between the bearer check and the query makes a decision
   that reports the old version and has none: the same version is reported with and without capabilities.
   */
  lemma StaleVersionIsReported(dbs: seq<Db>, es: seq<Event>, t: Uid, now: Instant, row: (Uid, Uid))
    returns (dbs': seq<Db>, es': seq<Event>)
    requires IsRun(dbs, es) && Live(dbs[|es|], t, now) && IsRow(dbs[|es|], dbs[|es|].tokens[t].issue, row)
    ensures IsRun(dbs', es') && dbs <= dbs' && |es'| == |es| + 1
    ensures IsDecision(dbs', |es|, |es| + 1, t, now, [])
    ensures forall rows | IsDecision(dbs', |es|, |es|, t, now, rows) :: row in rows
    ensures Touches(dbs'[|es|], es'[|es|], dbs[|es|].tokens[t].issue.terms.server.value)
    ensures dbs'[|es| + 1].policy.apps == dbs[|es|].policy.apps && dbs'[|es| + 1].members == dbs[|es|].members
  {
    hide Inv, IsAnswer;
    var db := dbs[|es|];
    var issue, g := db.tokens[t].issue, db.policy.grants[row.0];
    var e := Manage(DeleteGrant(row.0, g.tenant, g.app, g.version), db.now);
    var db' := Apply(db, e);
    ReachableInv(dbs, es, |es|);
    Extend(dbs, es, e, db');
    dbs', es' := dbs + [db'], es + [e];
    DeletedGrantIsGone(db, e, row.0, issue);
    NoGrantNoRows(db', issue);
    forall rows | IsDecision(dbs', |es|, |es|, t, now, rows) ensures row in rows {
      AnswerHasRow(db, issue, rows, row);
    }
  }

  lemma AnswerHasRow(db: Db, issue: TokenIssue, rows: seq<(Uid, Uid)>, row: (Uid, Uid))
    requires IsAnswer(db, issue, rows) && IsRow(db, issue, row)
    ensures row in rows
  {
  }

  lemma DeletedGrantIsGone(db: Db, e: Event, g: Uid, issue: TokenIssue)
    requires Inv(db) && issue.terms.server.Some? && GrantLive(db.policy, g, issue.terms.app, issue.terms.server.value)
    requires e.Manage? && var row := db.policy.grants[g]; e.change == DeleteGrant(g, row.tenant, row.app, row.version)
    ensures Accepted(db.policy, e.change) && Bumped(db.policy, e.change) == issue.terms.server
    ensures Apply(db, e).policy.apps == db.policy.apps && Apply(db, e).members == db.members
    ensures forall h :: !GrantLive(Apply(db, e).policy, h, issue.terms.app, issue.terms.server.value)
  {
    hide TokensCovered, ChainOk, PolicyUids, Revoke;
    assert Accepted(db.policy, e.change);
    assert g in db.policy.grants;
  }

  /**
   Two decisions of one run report the same policy version for the same token: the first with a capability, the second,
   whose query comes after the grant was deleted, with none.
   */
  lemma OneVersionTwoAnswers() returns (dbs: seq<Db>, es: seq<Event>, i: nat, rows: seq<(Uid, Uid)>)
    ensures IsRun(dbs, es) && IsDecision(dbs, i, i, 7, 0, rows) && |rows| == 1 && IsDecision(dbs, i, i + 1, 7, 0, [])
    ensures |dbs| == i + 2 && dbs[i].tokens[7].issue == ISSUE && Touches(dbs[i], es[i], 1)
    ensures dbs[i].policy.apps == dbs[i + 1].policy.apps && dbs[i].members == dbs[i + 1].members
  {
    hide Next, Live, IsAnswer, IsRow;
    dbs, es := TokenIssued();
    i := |es|;
    rows := [(3, 2)];
    PolicyRows(dbs[i]);
    var before := dbs;
    dbs, es := StaleVersionIsReported(dbs, es, 7, 0, (3, 2));
    assert dbs[i] == before[i];
  }

  /**
   In all runs: when the version moves by at most m between check and query, and application and member are as live,
   the query answers what it would have answered under the reported version.
   */
  ghost predicate NamesRowsWithin(m: nat) {
    forall dbs: seq<Db>, es: seq<Event>, i: nat, j: nat, t: Uid, now: Instant, rows: seq<(Uid, Uid)> ::
      IsRun(dbs, es) && IsDecision(dbs, i, j, t, now, rows) && MovesAtMost(dbs[i], dbs[j], dbs[i].tokens[t].issue, m)
      ==> IsAnswer(dbs[i], dbs[i].tokens[t].issue, rows)
  }

  predicate MovesAtMost(db: Db, db': Db, issue: TokenIssue, m: nat) {
    && issue.terms.server.Some? && issue.terms.server.value in db.policy.servers
        && issue.terms.server.value in db'.policy.servers
    && VersionOf(db', issue.terms.server.value) <= VersionOf(db, issue.terms.server.value) + m
    && (AppLive(db.policy, issue.terms.app) <==> AppLive(db'.policy, issue.terms.app))
    && (MemberActive(db, issue.member) <==> MemberActive(db', issue.member))
  }

  /** The reported version is sure to name the rows exactly when the version may not move before the query. */
  lemma NamesRowsIffVersionStandsStill(m: nat)
    ensures NamesRowsWithin(m) <==> m == 0
  {
    hide Next, IsAnswer, Inv, AppLive, MemberActive, ServerLive, GrantLive;
    if m == 0 {
      forall dbs: seq<Db>, es: seq<Event>, i: nat, j: nat, t: Uid, now: Instant, rows: seq<(Uid, Uid)>
        | IsRun(dbs, es) && IsDecision(dbs, i, j, t, now, rows)
            && MovesAtMost(dbs[i], dbs[j], dbs[i].tokens[t].issue, 0)
        ensures IsAnswer(dbs[i], dbs[i].tokens[t].issue, rows)
      {
        var issue := dbs[i].tokens[t].issue;
        VersionStandsStillIffUntouched(dbs, es, i, j, issue.terms.server.value);
        SameVersionSameCapabilities(dbs, es, i, j, issue, rows);
      }
    } else {
      var dbs, es, i, rows := OneVersionTwoAnswers();
      ReachableInv(dbs, es, i);
      assert Next(dbs[i], es[i], dbs[i + 1]);
      LiveServer(dbs[i], 7, 0);
      StepMovesVersion(dbs[i], es[i], dbs[i + 1], 1);
      SameLiveness(dbs[i], dbs[i + 1], ISSUE);
      assert MovesAtMost(dbs[i], dbs[i + 1], ISSUE, m);
      NotBothAnswers(dbs[i], ISSUE, rows);
    }
  }

  lemma LiveServer(db: Db, t: Uid, now: Instant)
    requires Live(db, t, now)
    ensures t in db.tokens && db.tokens[t].issue.terms.server.Some?
            && db.tokens[t].issue.terms.server.value in db.policy.servers
  {
  }

  lemma SameLiveness(db: Db, db': Db, issue: TokenIssue)
    requires db.policy.apps == db'.policy.apps && db.members == db'.members
    ensures AppLive(db.policy, issue.terms.app) <==> AppLive(db'.policy, issue.terms.app)
    ensures MemberActive(db, issue.member) <==> MemberActive(db', issue.member)
  {
  }

  lemma NotBothAnswers(db: Db, issue: TokenIssue, rows: seq<(Uid, Uid)>)
    requires IsAnswer(db, issue, rows) && rows != []
    ensures !IsAnswer(db, issue, [])
  {
    assert IsRow(db, issue, rows[0]);
  }
}
