/** Authorization decisions for a resource server (internal/api/authorization_decisions.go), read over a run. */
module Decisions {
  import opened Common
  import opened Strings
  import opened Scopes
  import opened Policies
  import opened Authorization
  import opened AuthorizationProofs
  import opened AuthorizationRuns

  /** The bearer check lets the token in. */
  predicate Live(db: Db, t: Uid, now: Instant) {
    && t in db.tokens && db.tokens[t].revokedAt.None? && now < db.tokens[t].expiresAt
    && var issue := db.tokens[t].issue;
       && MemberActive(db, issue.member) && AppLive(db.policy, issue.terms.app)
       && issue.terms.server.Some? && ServerLive(db.policy, issue.terms.server.value)
       && exists g | g in db.policy.grants :: GrantLive(db.policy, g, issue.terms.app, issue.terms.server.value)
  }

  predicate MemberActive(db: Db, member: Uid) {
    member in db.members && db.members[member].active
  }

  /**
   One row of the capability query: grant g assigns scope u, everything in between is live, and the token has the
   scope.
   */
  predicate Capability(p: Policy, terms: Terms, g: Uid, u: Uid) {
    && terms.server.Some? && AppLive(p, terms.app) && ServerLive(p, terms.server.value)
    && GrantLive(p, g, terms.app, terms.server.value) && u in p.grants[g].scopes
    && ScopeLive(p, u) && p.scopes[u].server == terms.server.value && p.scopes[u].name in terms.scopes
  }

  predicate IsRow(db: Db, issue: TokenIssue, row: (Uid, Uid)) {
    MemberActive(db, issue.member) && Capability(db.policy, issue.terms, row.0, row.1)
  }

  /**
   The rows the query may return: each joined pair once. Their order is the database's collation of the scope names.
   */
  ghost predicate IsAnswer(db: Db, issue: TokenIssue, rows: seq<(Uid, Uid)>) {
    && (forall i | 0 <= i < |rows| :: IsRow(db, issue, rows[i]))
    && (forall row | IsRow(db, issue, row) :: row in rows)
    && (forall i, j | 0 <= i < j < |rows| :: rows[i] != rows[j])
  }

  predicate InScopes(p: Policy, rows: seq<(Uid, Uid)>) {
    forall i | 0 <= i < |rows| :: rows[i].1 in p.scopes
  }

  function Names(p: Policy, rows: seq<(Uid, Uid)>): (names: seq<string>)
    requires InScopes(p, rows)
    ensures |names| == |rows| && forall i | 0 <= i < |rows| :: names[i] == p.scopes[rows[i].1].name
  {
    seq(|rows|, i requires 0 <= i < |rows| => p.scopes[rows[i].1].name)
  }

  /** The collation compares names byte by byte, as Go does. */
  ghost predicate ByteOrder(p: Policy, rows: seq<(Uid, Uid)>)
    requires InScopes(p, rows)
  {
    forall i, j | 0 <= i <= j < |rows| :: AtMost(p.scopes[rows[i].1].name, p.scopes[rows[j].1].name)
  }

  /** The loop over the rows. */
  method CurrentCapabilities(db: Db, issue: TokenIssue, rows: seq<(Uid, Uid)>) returns (capabilities: seq<string>)
    requires IsAnswer(db, issue, rows)
    ensures InScopes(db.policy, rows) && capabilities == Names(db.policy, rows)
  {
    capabilities := [];
    for n := 0 to |rows|
      invariant InScopes(db.policy, rows[..n]) && capabilities == Names(db.policy, rows[..n])
    {
      assert IsRow(db, issue, rows[n]);
      assert rows[..n + 1] == rows[..n] + [rows[n]];
      capabilities := capabilities + [db.policy.scopes[rows[n].1].name];
    }
    assert rows[..|rows|] == rows;
  }

  datatype Verdict = Allowed | MissingCapability | UnknownOperation | InvalidOperation

  predicate OperationExists(p: Policy, server: Uid, operation: string) {
    exists u | u in p.scopes :: p.scopes[u].server == server && p.scopes[u].name == operation && ScopeLive(p, u)
  }

  /**
   createAuthorizationDecision: the capabilities were read a moment before `p`, in which the operation is looked up.
   */
  method Decide(p: Policy, server: Uid, capabilities: seq<string>, operation: string) returns (v: Verdict)
    ensures v == InvalidOperation <==> !DelegatedName(operation)
    ensures v == Allowed
            <==> DelegatedName(operation) && operation in capabilities && OperationExists(p, server, operation)
    ensures v == UnknownOperation <==> DelegatedName(operation) && !OperationExists(p, server, operation)
  {
    if !DelegatedName(operation) {
      return InvalidOperation;
    }
    var known := OperationExists(p, server, operation);
    var allowed := known && operation in capabilities;
    v := Allowed;
    if !allowed {
      v := MissingCapability;
      if !known {
        v := UnknownOperation;
      }
    }
  }

  // ----- the capabilities of an unrevoked token are exactly its delegated scopes -----

  predicate Strict(xs: seq<string>) {
    forall i, j | 0 <= i < j < |xs| :: Below(xs[i], xs[j])
  }

  /** Two strictly ascending lists with the same members are the same list. */
  lemma {:induction false} StrictListsAgree(xs: seq<string>, ys: seq<string>)
    requires Strict(xs) && Strict(ys) && (forall v :: v in xs <==> v in ys)
    ensures xs == ys
  {
    assert xs != [] ==> xs[0] in ys;
    assert ys != [] ==> ys[0] in xs;
    if xs != [] {
      var i :| 0 <= i < |ys| && ys[i] == xs[0];
      var j :| 0 <= j < |xs| && xs[j] == ys[0];
      BelowTotal(xs[0], ys[0]);
      assert xs[0] == ys[0];
      forall v ensures v in xs[1..] <==> v in ys[1..] {
        BelowTotal(v, v);
        assert v in xs[1..] ==> v in xs && v != xs[0];
        assert v in ys[1..] ==> v in ys && v != ys[0];
      }
      StrictListsAgree(xs[1..], ys[1..]);
      assert xs == [xs[0]] + xs[1..] && ys == [ys[0]] + ys[1..];
    }
  }

  lemma {:induction false} CustomStrict(values: seq<string>)
    requires NormalForm(values)
    ensures Strict(Custom(values))
  {
    forall i, j | 0 <= i < j < |values| ensures Below(values[i], values[j]) {
      assert AtMost(Itself(values[i]), Itself(values[j]));
    }
    CustomOfStrict(values);
  }

  lemma {:induction false} CustomOfStrict(values: seq<string>)
    requires Strict(values)
    ensures Strict(Custom(values))
  {
    if values != [] {
      var n := |values| - 1;
      CustomOfStrict(values[..n]);
      var before := Custom(values[..n]);
      forall i | 0 <= i < |before| ensures Below(before[i], values[n]) {
        assert before[i] in values[..n];
      }
    }
  }

  /** One live grant per application and server and one scope per name leave no two rows with one name. */
  lemma NamesAreDistinct(db: Db, issue: TokenIssue, rows: seq<(Uid, Uid)>)
    requires PolicyOk(db.policy) && IsAnswer(db, issue, rows)
    ensures InScopes(db.policy, rows) && NoDuplicates(Names(db.policy, rows))
    ensures ByteOrder(db.policy, rows) ==> Strict(Names(db.policy, rows))
  {
    var p := db.policy;
    assert forall i | 0 <= i < |rows| :: IsRow(db, issue, rows[i]);
    forall i, j | 0 <= i < j < |rows| ensures p.scopes[rows[i].1].name != p.scopes[rows[j].1].name {
      if p.scopes[rows[i].1].name == p.scopes[rows[j].1].name {
        OneRowPerName(db, issue, rows[i], rows[j]);
        assert false;
      }
    }
  }

  lemma OneRowPerName(db: Db, issue: TokenIssue, row: (Uid, Uid), row': (Uid, Uid))
    requires PolicyOk(db.policy) && IsRow(db, issue, row) && IsRow(db, issue, row')
    requires db.policy.scopes[row.1].name == db.policy.scopes[row'.1].name
    ensures row == row'
  {
    assert row.0 in db.policy.grants && row'.0 in db.policy.grants;
  }

  /**
   The capabilities of an unrevoked token are its delegated scopes, each once; under a byte-wise collation they are the
   very same list.
   */
  lemma CapabilitiesAreTheDelegatedScopes(dbs: seq<Db>, es: seq<Event>, i: nat, t: Uid, rows: seq<(Uid, Uid)>)
    requires IsRun(dbs, es) && i < |dbs| && t in dbs[i].tokens && dbs[i].tokens[t].revokedAt.None?
    requires dbs[i].tokens[t].issue.terms.server.Some? && MemberActive(dbs[i], dbs[i].tokens[t].issue.member)
    requires IsAnswer(dbs[i], dbs[i].tokens[t].issue, rows)
    ensures InScopes(dbs[i].policy, rows) && NoDuplicates(Names(dbs[i].policy, rows))
    ensures forall v :: v in Names(dbs[i].policy, rows) <==> v in Custom(dbs[i].tokens[t].issue.terms.scopes)
    ensures ByteOrder(dbs[i].policy, rows) ==>
              Names(dbs[i].policy, rows) == Custom(dbs[i].tokens[t].issue.terms.scopes)
  {
    hide Next, NormalForm, PolicyOk, Covered, IsAnswer, ByteOrder, NoDuplicates;
    var db, issue := dbs[i], dbs[i].tokens[t].issue;
    ReachableInv(dbs, es, i);
    UnrevokedTokensAreCovered(dbs, es, i, t);
    TokenTermsOk(db, t);
    NamesAreDistinct(db, issue, rows);
    CustomStrict(issue.terms.scopes);
    forall v ensures v in Names(db.policy, rows) <==> v in Custom(issue.terms.scopes) {
      if v in Names(db.policy, rows) {
        NamedIsDelegated(db, issue, rows, v);
      } else if v in issue.terms.scopes && !IsOidc(v) {
        DelegatedIsNamed(db, issue, rows, v);
      }
    }
    if ByteOrder(db.policy, rows) {
      StrictListsAgree(Names(db.policy, rows), Custom(issue.terms.scopes));
    }
  }

  lemma TokenTermsOk(db: Db, t: Uid)
    requires ChainOk(db) && t in db.tokens
    ensures TermsOk(db.tokens[t].issue.terms)
  {
    hide TermsOk;
    var issue := db.issuedTokens[t];
    assert issue.code in db.issuedCodes;
    assert db.issuedCodes[issue.code].request in db.issuedRequests;
  }

  lemma NamedIsDelegated(db: Db, issue: TokenIssue, rows: seq<(Uid, Uid)>, v: string)
    requires PolicyOk(db.policy) && IsAnswer(db, issue, rows) && InScopes(db.policy, rows)
             && v in Names(db.policy, rows)
    ensures v in Custom(issue.terms.scopes)
  {
    hide UniqueIdentifiers, UniqueScopeNames, UniqueGrants, GrantOk;
    var i :| 0 <= i < |rows| && Names(db.policy, rows)[i] == v;
    assert IsRow(db, issue, rows[i]);
    assert ScopeOk(db.policy, rows[i].1);
  }

  lemma DelegatedIsNamed(db: Db, issue: TokenIssue, rows: seq<(Uid, Uid)>, v: string)
    requires issue.terms.server.Some? && Covered(db.policy, issue.terms) && MemberActive(db, issue.member)
    requires IsAnswer(db, issue, rows) && InScopes(db.policy, rows) && v in issue.terms.scopes && !IsOidc(v)
    ensures v in Names(db.policy, rows)
  {
    hide IsOidc;
    var g: Uid :| CoveredBy(db.policy, issue.terms, g);
    var u: Uid :| AssignedBy(db.policy, g, issue.terms.server.value, v, u);
    assert IsRow(db, issue, (g, u));
    var i :| 0 <= i < |rows| && rows[i] == (g, u);
    assert Names(db.policy, rows)[i] == v;
  }

  /**
   Of all the conditions of the bearer check, only the token's own and the member's can fail: application, server and
   grant are live whenever the token is unrevoked.
   */
  lemma BearerCheckRestsOnRevocation(dbs: seq<Db>, es: seq<Event>, i: nat, t: Uid, now: Instant)
    requires IsRun(dbs, es) && i < |dbs|
    ensures Live(dbs[i], t, now) <==>
              && t in dbs[i].tokens && dbs[i].tokens[t].revokedAt.None? && now < dbs[i].tokens[t].expiresAt
              && dbs[i].tokens[t].issue.terms.server.Some? && MemberActive(dbs[i], dbs[i].tokens[t].issue.member)
  {
    hide Next;
    if t in dbs[i].tokens && dbs[i].tokens[t].revokedAt.None? && dbs[i].tokens[t].issue.terms.server.Some? {
      UnrevokedTokensAreCovered(dbs, es, i, t);
      var terms := dbs[i].tokens[t].issue.terms;
      var g: Uid :| CoveredBy(dbs[i].policy, terms, g);
      assert GrantLive(dbs[i].policy, g, terms.app, terms.server.value);
    }
  }

  /** The columns behind one capability: everything from the member to the assigned scope is active and not deleted. */
  ghost predicate Usable(db: Db, issue: TokenIssue, g: Uid, u: Uid) {
    var p, terms := db.policy, issue.terms;
    && issue.member in db.members && db.members[issue.member].active
    && terms.app in p.apps && p.apps[terms.app].active && !p.apps[terms.app].deleted
    && terms.server.Some? && terms.server.value in p.servers
    && p.servers[terms.server.value].active && !p.servers[terms.server.value].deleted
    && g in p.grants && p.grants[g].app == terms.app && p.grants[g].server == terms.server.value
    && p.grants[g].active && !p.grants[g].deleted && u in p.grants[g].scopes
    && u in p.scopes && p.scopes[u].server == terms.server.value && p.scopes[u].active && !p.scopes[u].deleted
  }

  /**
   A name is a capability exactly when the token has it and some grant assigns it with everything in between usable.
   */
  lemma CapabilityIff(db: Db, issue: TokenIssue, rows: seq<(Uid, Uid)>, v: string)
    requires IsAnswer(db, issue, rows)
    ensures InScopes(db.policy, rows)
    ensures v in Names(db.policy, rows)
            <==> v in issue.terms.scopes && exists g, u :: Usable(db, issue, g, u) && db.policy.scopes[u].name == v
  {
    forall i | 0 <= i < |rows| ensures rows[i].1 in db.policy.scopes {
      assert IsRow(db, issue, rows[i]);
    }
    if v in Names(db.policy, rows) {
      var i :| 0 <= i < |rows| && Names(db.policy, rows)[i] == v;
      assert IsRow(db, issue, rows[i]);
      assert Usable(db, issue, rows[i].0, rows[i].1);
    }
    if v in issue.terms.scopes && exists g, u :: Usable(db, issue, g, u) && db.policy.scopes[u].name == v {
      var g: Uid, u: Uid :| Usable(db, issue, g, u) && db.policy.scopes[u].name == v;
      assert IsRow(db, issue, (g, u));
      var i :| 0 <= i < |rows| && rows[i] == (g, u);
      assert Names(db.policy, rows)[i] == v;
    }
  }

  /**
   A decision never allows more than the token asked for: whatever happened to the token, the member or the policy
   in the meantime, every capability is one of the token's delegated scopes.
   */
  lemma CapabilitiesNeverExceedTheToken(dbs: seq<Db>, es: seq<Event>, j: nat, issue: TokenIssue, rows: seq<(Uid, Uid)>)
    requires IsRun(dbs, es) && j < |dbs| && IsAnswer(dbs[j], issue, rows)
    ensures InScopes(dbs[j].policy, rows)
    ensures forall v | v in Names(dbs[j].policy, rows) :: v in issue.terms.scopes && !IsOidc(v)
  {
    hide Next, PolicyOk, IsOidc;
    ReachableInv(dbs, es, j);
    forall i | 0 <= i < |rows| ensures rows[i].1 in dbs[j].policy.scopes {
      RowScope(dbs[j], issue, rows[i]);
    }
    forall v | v in Names(dbs[j].policy, rows) ensures v in issue.terms.scopes && !IsOidc(v) {
      NamedIsDelegated(dbs[j], issue, rows, v);
    }
  }

  /**
   The bearer check, the capability query and the operation lookup are three statements, with any steps in between.
   While the token stays unrevoked and the member active, an operation is allowed exactly when it is one of the
   token's delegated scopes.
   */
  lemma DecisionFollowsTheToken(dbs: seq<Db>, es: seq<Event>, i: nat, j: nat, k: nat, now: Instant, t: Uid,
                                rows: seq<(Uid, Uid)>, operation: string)
    requires IsRun(dbs, es) && i <= j <= k < |dbs| && Live(dbs[i], t, now)
    requires t in dbs[j].tokens && t in dbs[k].tokens && dbs[k].tokens[t].revokedAt.None?
    requires MemberActive(dbs[j], dbs[j].tokens[t].issue.member)
    requires IsAnswer(dbs[j], dbs[i].tokens[t].issue, rows)
    ensures InScopes(dbs[j].policy, rows)
    ensures var terms := dbs[i].tokens[t].issue.terms;
            operation in Names(dbs[j].policy, rows) && OperationExists(dbs[k].policy, terms.server.value, operation)
            <==> operation in terms.scopes && !IsOidc(operation)
  {
    hide Next, IsAnswer, Inv, Covered, IsOidc, OperationExists;
    IssueIsFixed(dbs, es, i, j, t);
    IssueIsFixed(dbs, es, i, k, t);
    if dbs[j].tokens[t].revokedAt.Some? {
      RevocationIsFinal(dbs, es, j, k, t);
      assert false;
    }
    CapabilitiesAreTheDelegatedScopes(dbs, es, j, t, rows);
    UnrevokedTokensAreCovered(dbs, es, k, t);
    CoveredOperationExists(dbs[k].policy, dbs[k].tokens[t].issue.terms, operation);
  }

  lemma CoveredOperationExists(p: Policy, terms: Terms, operation: string)
    requires terms.server.Some? && Covered(p, terms)
    ensures operation in terms.scopes && !IsOidc(operation) ==> OperationExists(p, terms.server.value, operation)
  {
    hide IsOidc;
    if operation in terms.scopes && !IsOidc(operation) {
      var g: Uid :| CoveredBy(p, terms, g);
      var u: Uid :| AssignedBy(p, g, terms.server.value, operation, u);
    }
  }

  /** A token's member and terms never change. */
  lemma {:induction false} IssueIsFixed(dbs: seq<Db>, es: seq<Event>, i: nat, j: nat, t: Uid)
    requires IsRun(dbs, es) && i <= j < |dbs| && t in dbs[i].tokens && t in dbs[j].tokens
    ensures dbs[i].tokens[t].issue == dbs[j].tokens[t].issue
  {
    hide Next, Inv, CanExchange;
    ReachableInv(dbs, es, i);
    ReachableInv(dbs, es, j);
    TokenUsed(dbs[i], t);
    TokenUsed(dbs[j], t);
    TokenLogKept(dbs, es, i, j, t);
  }

  lemma {:induction false} TokenLogKept(dbs: seq<Db>, es: seq<Event>, i: nat, j: nat, t: Uid)
    requires IsRun(dbs, es) && i <= j < |dbs| && t in dbs[i].issuedTokens
    ensures t in dbs[j].issuedTokens && dbs[j].issuedTokens[t] == dbs[i].issuedTokens[t]
  {
    hide Apply, Inv, CanExchange;
    if i < j {
      TokenLogKept(dbs, es, i, j - 1, t);
      assert Next(dbs[j - 1], es[j - 1], dbs[j]);
      ReachableInv(dbs, es, j - 1);
      LogsUsed(dbs[j - 1]);
      TokenLogStep(dbs[j - 1], es[j - 1]);
    }
  }

  // ----- capabilities depend on the policy only through its version -----

  /** The same server view, live application and member give the same rows. */
  lemma RowsComeFromTheView(db: Db, db': Db, issue: TokenIssue, row: (Uid, Uid))
    requires PolicyOk(db.policy) && PolicyOk(db'.policy) && issue.terms.server.Some?
    requires issue.terms.server.value in db.policy.servers && issue.terms.server.value in db'.policy.servers
    requires ViewOf(db.policy, issue.terms.server.value) == ViewOf(db'.policy, issue.terms.server.value)
    requires AppLive(db.policy, issue.terms.app) <==> AppLive(db'.policy, issue.terms.app)
    requires MemberActive(db, issue.member) <==> MemberActive(db', issue.member)
    requires IsRow(db, issue, row)
    ensures IsRow(db', issue, row) && db'.policy.scopes[row.1].name == db.policy.scopes[row.1].name
  {
    hide PolicyOk;
    var v, v' := ViewOf(db.policy, issue.terms.server.value), ViewOf(db'.policy, issue.terms.server.value);
    assert v.grants[row.0] == v'.grants[row.0] && v.scopes[row.1] == v'.scopes[row.1];
  }

  /**
   Two capability queries that run under the same policy version have the same answers, for one application and
   member as live at both moments. The version a decision reports is read earlier; see ReportedVersions.
   */
  lemma SameVersionSameCapabilities(dbs: seq<Db>, es: seq<Event>, i: nat, j: nat, issue: TokenIssue,
      rows: seq<(Uid, Uid)>)
    requires IsRun(dbs, es) && i < |dbs| && j < |dbs| && issue.terms.server.Some?
    requires var server := issue.terms.server.value;
             && server in dbs[i].policy.servers && server in dbs[j].policy.servers
             && dbs[i].policy.servers[server].policyVersion == dbs[j].policy.servers[server].policyVersion
    requires AppLive(dbs[i].policy, issue.terms.app) <==> AppLive(dbs[j].policy, issue.terms.app)
    requires MemberActive(dbs[i], issue.member) <==> MemberActive(dbs[j], issue.member)
    ensures IsAnswer(dbs[i], issue, rows) <==> IsAnswer(dbs[j], issue, rows)
  {
    hide Next, ViewOf, IsRow, PolicyOk, AppLive;
    if i <= j {
      PolicyVersionNamesThePolicy(dbs, es, i, j, issue.terms.server.value);
    } else {
      PolicyVersionNamesThePolicy(dbs, es, j, i, issue.terms.server.value);
    }
    ReachableInv(dbs, es, i);
    ReachableInv(dbs, es, j);
    forall row | IsRow(dbs[i], issue, row) || IsRow(dbs[j], issue, row)
      ensures IsRow(dbs[i], issue, row) && IsRow(dbs[j], issue, row)
      ensures row.1 in dbs[i].policy.scopes && row.1 in dbs[j].policy.scopes
      ensures dbs[i].policy.scopes[row.1].name == dbs[j].policy.scopes[row.1].name
    {
      if IsRow(dbs[i], issue, row) {
        RowsComeFromTheView(dbs[i], dbs[j], issue, row);
      } else {
        RowsComeFromTheView(dbs[j], dbs[i], issue, row);
      }
      RowScope(dbs[i], issue, row);
      RowScope(dbs[j], issue, row);
    }
  }

  lemma RowScope(db: Db, issue: TokenIssue, row: (Uid, Uid))
    requires IsRow(db, issue, row)
    ensures row.1 in db.policy.scopes
  {
  }
}
