/** What holds over every run of the authorization server, whatever requests arrive in whatever order. */
module AuthorizationRuns {
  import opened Common
  import opened Scopes
  import opened Policies
  import opened Authorization
  import opened AuthorizationProofs

  /** In every reachable state, an unrevoked token for a server has a live application, server and covering grant. */
  lemma UnrevokedTokensAreCovered(dbs: seq<Db>, es: seq<Event>, i: nat, t: Uid)
    requires IsRun(dbs, es) && i < |dbs| && t in dbs[i].tokens && dbs[i].tokens[t].revokedAt.None?
    ensures Covered(dbs[i].policy, dbs[i].tokens[t].issue.terms)
  {
    hide Covered, Next;
    ReachableInv(dbs, es, i);
  }

  // ----- what is spent stays spent -----

  /** The token is gone or revoked at that moment, and its uid can never be issued again. */
  predicate TokenSpent(db: Db, t: Uid, at: Instant) {
    t in db.used && (t in db.tokens ==> db.tokens[t].revokedAt == Some(at))
  }

  predicate CodeSpent(db: Db, c: Uid) {
    c in db.used && (c in db.codes ==> db.codes[c].consumedAt.Some?)
  }

  predicate RequestSpent(db: Db, q: Uid) {
    q in db.used && (q in db.requests ==> db.requests[q].status != Pending)
  }

  /** No token is created under a used uid, none changes what it was issued for, and a revoked one never changes. */
  predicate TokensFrame(used: set<Uid>, a: Tokens, b: Tokens) {
    forall t | t in b && t in used ::
      t in a && (a[t].revokedAt.Some? ==> b[t] == a[t]) && b[t].issue == a[t].issue && b[t].expiresAt == a[t].expiresAt
  }

  predicate CodesFrame(used: set<Uid>, a: Codes, b: Codes) {
    forall c | c in b && c in used ::
      c in a && (a[c].consumedAt.Some? ==> b[c] == a[c]) && b[c].issue == a[c].issue && b[c].expiresAt == a[c].expiresAt
  }

  predicate RequestsFrame(used: set<Uid>, a: Requests, b: Requests) {
    forall q | q in b && q in used ::
      q in a && (a[q].status != Pending ==> b[q] == a[q]) && b[q].ask == a[q].ask && b[q].expiresAt == a[q].expiresAt
  }

  /** Used uids stay used, and a revoked token, a consumed code and a resolved request never change. */
  predicate Frame(db: Db, db': Db) {
    && db.used <= db'.used
    && TokensFrame(db.used, db.tokens, db'.tokens)
    && CodesFrame(db.used, db.codes, db'.codes)
    && RequestsFrame(db.used, db.requests, db'.requests)
  }

  lemma SameRows(db: Db)
    ensures Frame(db, db)
  {
  }

  lemma RevokeFrame(used: set<Uid>, tokens: Tokens, f: Filter, at: Instant)
    ensures TokensFrame(used, tokens, Revoke(tokens, f, at))
  {
    hide Hits;
  }

  lemma ManageFrame(db: Db, c: Change, at: Instant)
    ensures Frame(db, ManageDb(db, c, at))
  {
    hide Accepted, Changed, Revokes, Revoke, TokensFrame, CodesFrame, RequestsFrame;
    SameRows(db);
    if Accepted(db.policy, c) {
      RevokeFrame(db.used, db.tokens, Revokes(db.policy, c), at);
    }
  }

  lemma AuthorizeFrame(db: Db, e: Event)
    requires e.Authorize? && e.request !in db.used
    ensures Frame(db, AuthorizeDb(db, e))
  {
    hide CanAuthorize, AskOf, TokensFrame, CodesFrame;
    SameRows(db);
  }

  lemma DecideFrame(db: Db, e: Event)
    requires e.Decide? && e.code !in db.used
    ensures Frame(db, DecideDb(db, e))
  {
    hide StillGranted, TokensFrame;
    SameRows(db);
  }

  lemma ExchangeFrame(db: Db, e: Event)
    requires e.Exchange? && e.token !in db.used
    ensures Frame(db, ExchangeDb(db, e))
  {
    hide StillGranted, RequestsFrame;
    SameRows(db);
  }

  lemma ConsumeFrame(used: set<Uid>, codes: Codes, member: Uid, at: Instant)
    ensures CodesFrame(used, codes, ConsumeCodesOf(codes, member, at))
  {
  }

  lemma RowsFrame(db: Db, e: Event)
    requires Enabled(db, e) && !e.Manage? && !e.Authorize? && !e.Decide? && !e.Exchange? && !e.Remove?
    ensures Frame(db, Apply(db, e))
  {
    hide TokensFrame, CodesFrame, RequestsFrame, Revoke, ConsumeCodesOf;
    SameRows(db);
    match e
    case Recover(member, at) =>
      RevokeFrame(db.used, db.tokens, OfMember(member), at);
      ConsumeFrame(db.used, db.codes, member, at);
    case RevokeToken(client, token, at) => RevokeFrame(db.used, db.tokens, OneToken(client, token), at);
    case RevokeConsent(app, member, server, at) => RevokeFrame(db.used, db.tokens, OfConsent(app, member, server), at);
    case _ =>
  }

  lemma RemoveFrame(db: Db, e: Event)
    requires e.Remove?
    ensures Frame(db, Apply(db, e))
  {
  }

  lemma StepFrame(db: Db, e: Event, db': Db)
    requires Next(db, e, db')
    ensures Frame(db, db')
  {
    hide Frame, Revoke, ConsumeCodesOf, ManageDb, AuthorizeDb, DecideDb, ExchangeDb;
    match e
    case Manage(c, at) => ManageFrame(db, c, at);
    case Authorize(_, _, _, _, _, _, _, _, _) => AuthorizeFrame(db, e);
    case Decide(_, _, _, _, _, _, _) => DecideFrame(db, e);
    case Exchange(_, _, _, _, _, _, _) => ExchangeFrame(db, e);
    case Remove(_, _, _, _, _) => RemoveFrame(db, e);
    case _ => RowsFrame(db, e);
  }

  /** Revocation is never undone or re-dated. */
  lemma {:induction false} RevocationIsFinal(dbs: seq<Db>, es: seq<Event>, i: nat, j: nat, t: Uid)
    requires IsRun(dbs, es) && i <= j < |dbs| && t in dbs[i].tokens && dbs[i].tokens[t].revokedAt.Some?
    ensures TokenSpent(dbs[j], t, dbs[i].tokens[t].revokedAt.value)
  {
    hide Next;
    if i == j {
      ReachableInv(dbs, es, i);
    } else {
      RevocationIsFinal(dbs, es, i, j - 1, t);
      StepFrame(dbs[j - 1], es[j - 1], dbs[j]);
    }
  }

  lemma {:induction false} CodeStaysSpent(dbs: seq<Db>, es: seq<Event>, i: nat, j: nat, c: Uid)
    requires IsRun(dbs, es) && i <= j < |dbs| && CodeSpent(dbs[i], c)
    ensures CodeSpent(dbs[j], c)
  {
    hide Next;
    if i < j {
      CodeStaysSpent(dbs, es, i, j - 1, c);
      StepFrame(dbs[j - 1], es[j - 1], dbs[j]);
    }
  }

  lemma {:induction false} RequestStaysSpent(dbs: seq<Db>, es: seq<Event>, i: nat, j: nat, q: Uid)
    requires IsRun(dbs, es) && i <= j < |dbs| && RequestSpent(dbs[i], q)
    ensures RequestSpent(dbs[j], q)
  {
    hide Next;
    if i < j {
      RequestStaysSpent(dbs, es, i, j - 1, q);
      StepFrame(dbs[j - 1], es[j - 1], dbs[j]);
    }
  }

  /** No code is redeemed twice. */
  lemma CodeRedeemedOnce(dbs: seq<Db>, es: seq<Event>, i: nat, j: nat)
    requires IsRun(dbs, es) && i < j < |es| && es[i].Exchange? && es[j].Exchange?
    requires CanExchange(dbs[i], es[i]) && CanExchange(dbs[j], es[j])
    ensures es[i].code != es[j].code
  {
    hide Inv, StillGranted;
    ReachableInv(dbs, es, i);
    var c := es[i].code;
    assert Next(dbs[i], es[i], dbs[i + 1]);
    CodeUsed(dbs[i], c);
    assert CodeSpent(dbs[i + 1], c);
    CodeStaysSpent(dbs, es, i + 1, j, c);
  }

  /** No request is resolved twice, neither approved after a denial nor denied after an approval. */
  lemma RequestResolvedOnce(dbs: seq<Db>, es: seq<Event>, i: nat, j: nat)
    requires IsRun(dbs, es) && i < j < |es| && es[i].Decide? && es[j].Decide?
    requires CanDecide(dbs[i], es[i]) && (es[i].approve ==> Approves(dbs[i], es[i])) && CanDecide(dbs[j], es[j])
    ensures es[i].request != es[j].request
  {
    hide Inv, StillGranted;
    ReachableInv(dbs, es, i);
    var q := es[i].request;
    assert Next(dbs[i], es[i], dbs[i + 1]);
    RequestUsed(dbs[i], q);
    assert RequestSpent(dbs[i + 1], q);
    RequestStaysSpent(dbs, es, i + 1, j, q);
  }

  lemma CodeUsed(db: Db, c: Uid)
    requires Inv(db) && c in db.codes
    ensures c in db.used && c in db.issuedCodes && db.codes[c].issue == db.issuedCodes[c]
  {
    hide PolicyOk, TokensCovered, RequestsOk, OneCodeEach, TokensOk, OneTokenEach, PolicyUids;
  }

  lemma RequestUsed(db: Db, q: Uid)
    requires Inv(db) && q in db.requests
    ensures q in db.used && q in db.issuedRequests && db.requests[q].ask == db.issuedRequests[q]
  {
    hide PolicyOk, TokensCovered, CodesOk, OneCodeEach, TokensOk, OneTokenEach, PolicyUids, TermsOk;
  }

  // ----- where a token comes from -----

  lemma RequestLogStep(db: Db, e: Event)
    ensures e.Authorize? && CanAuthorize(db, e) ==>
              Apply(db, e).issuedRequests == db.issuedRequests[e.request := AskOf(db, e)]
    ensures !(e.Authorize? && CanAuthorize(db, e)) ==> Apply(db, e).issuedRequests == db.issuedRequests
  {
    hide ManageDb, DecideDb, ExchangeDb, Revoke, CanAuthorize, AskOf, ConsumeCodesOf;
  }

  lemma CodeLogStep(db: Db, e: Event)
    ensures e.Decide? && Approves(db, e) ==>
              Apply(db, e).issuedCodes
              == db.issuedCodes[e.code := CodeIssue(e.request, e.member, db.requests[e.request].ask)]
    ensures !(e.Decide? && Approves(db, e)) ==> Apply(db, e).issuedCodes == db.issuedCodes
  {
    hide ManageDb, AuthorizeDb, ExchangeDb, Revoke, StillGranted, ConsumeCodesOf;
  }

  lemma TokenLogStep(db: Db, e: Event)
    ensures e.Exchange? && CanExchange(db, e) ==>
              var issue := db.codes[e.code].issue;
              Apply(db, e).issuedTokens == db.issuedTokens[e.token := TokenIssue(e.code, issue.member, issue.ask.terms)]
    ensures !(e.Exchange? && CanExchange(db, e)) ==> Apply(db, e).issuedTokens == db.issuedTokens
  {
    hide ManageDb, AuthorizeDb, DecideDb, Revoke, StillGranted, ConsumeCodesOf;
  }

  lemma {:induction false} TokenCameFromExchange(dbs: seq<Db>, es: seq<Event>, i: nat, t: Uid) returns (x: nat)
    requires IsRun(dbs, es) && i < |dbs| && t in dbs[i].issuedTokens
    ensures x < i && es[x].Exchange? && es[x].token == t && CanExchange(dbs[x], es[x])
    ensures var issue := dbs[x].codes[es[x].code].issue;
            dbs[i].issuedTokens[t] == TokenIssue(es[x].code, issue.member, issue.ask.terms)
  {
    hide Apply, StillGranted, AskOf, Inv;
    assert i > 0;
    x := i - 1;
    assert Next(dbs[x], es[x], dbs[i]);
    TokenLogStep(dbs[x], es[x]);
    if t in dbs[x].issuedTokens {
      ReachableInv(dbs, es, x);
      LogsUsed(dbs[x]);
      x := TokenCameFromExchange(dbs, es, x, t);
    }
  }

  lemma {:induction false} CodeCameFromDecision(dbs: seq<Db>, es: seq<Event>, i: nat, c: Uid) returns (d: nat)
    requires IsRun(dbs, es) && i < |dbs| && c in dbs[i].issuedCodes
    ensures d < i && es[d].Decide? && es[d].code == c && Approves(dbs[d], es[d])
    ensures dbs[i].issuedCodes[c] == CodeIssue(es[d].request, es[d].member, dbs[d].requests[es[d].request].ask)
  {
    hide Apply, StillGranted, AskOf, Inv;
    assert i > 0;
    d := i - 1;
    assert Next(dbs[d], es[d], dbs[i]);
    CodeLogStep(dbs[d], es[d]);
    if c in dbs[d].issuedCodes {
      ReachableInv(dbs, es, d);
      LogsUsed(dbs[d]);
      d := CodeCameFromDecision(dbs, es, d, c);
    }
  }

  lemma {:induction false} RequestCameFromAuthorize(dbs: seq<Db>, es: seq<Event>, i: nat, q: Uid) returns (a: nat)
    requires IsRun(dbs, es) && i < |dbs| && q in dbs[i].issuedRequests
    ensures a < i && es[a].Authorize? && es[a].request == q && CanAuthorize(dbs[a], es[a])
    ensures dbs[i].issuedRequests[q] == AskOf(dbs[a], es[a])
  {
    hide Apply, StillGranted, AskOf, Inv, CanAuthorize;
    assert i > 0;
    a := i - 1;
    assert Next(dbs[a], es[a], dbs[i]);
    RequestLogStep(dbs[a], es[a]);
    if q in dbs[a].issuedRequests {
      ReachableInv(dbs, es, a);
      LogsUsed(dbs[a]);
      a := RequestCameFromAuthorize(dbs, es, a, q);
    }
  }

  lemma LogsUsed(db: Db)
    requires Inv(db)
    ensures db.issuedRequests.Keys <= db.used && db.issuedCodes.Keys <= db.used && db.issuedTokens.Keys <= db.used
  {
    hide PolicyOk, TokensCovered, CodesOk, RequestsOk, OneCodeEach, OneTokenEach, TokensOk, PolicyUids;
  }

  /**
   Behind every access token stand one authorization request, one approval by the member and one exchange, in this
   order, and the token carries exactly what was asked: application, tenant, scopes and server. The exchange was made
   by the asking client, with the redirect URI and the PKCE challenge of the request. Request and code were not expired
   when they were used, the application was active at all three steps, and the member at the last.
   */
  lemma TokenProvenance(dbs: seq<Db>, es: seq<Event>, i: nat, t: Uid) returns (a: nat, d: nat, x: nat)
    requires IsRun(dbs, es) && i < |dbs| && t in dbs[i].tokens
    ensures a < d < x < i
    ensures es[a].Authorize? && CanAuthorize(dbs[a], es[a])
    ensures es[d].Decide? && Approves(dbs[d], es[d]) && es[d].request == es[a].request
    ensures es[x].Exchange? && CanExchange(dbs[x], es[x]) && es[x].code == es[d].code && es[x].token == t
    ensures dbs[i].tokens[t].issue.terms == AskOf(dbs[a], es[a]).terms
    ensures dbs[i].tokens[t].issue.member == es[d].member && es[d].tenant == AskOf(dbs[a], es[a]).terms.tenant
    ensures es[x].client == es[a].app && es[x].redirectUri == es[a].redirectUri && es[x].challenge == es[a].challenge
    ensures es[d].at < es[a].expiresAt && es[x].at < es[d].expiresAt
    ensures dbs[i].tokens[t].expiresAt == es[x].expiresAt
    ensures es[d].member in dbs[d].members && dbs[d].members[es[d].member].tenant == es[d].tenant
    ensures es[d].member in dbs[x].members && dbs[x].members[es[d].member].active
    ensures IsActive(dbs[a], es[a].app) && IsActive(dbs[d], es[a].app) && IsActive(dbs[x], es[a].app)
  {
    hide Inv, StillGranted, Next, Resolves;
    ReachableInv(dbs, es, i);
    TokenUsed(dbs[i], t);
    x := TokenCameFromExchange(dbs, es, i, t);
    ReachableInv(dbs, es, x);
    CodeUsed(dbs[x], es[x].code);
    d := CodeCameFromDecision(dbs, es, x, es[x].code);
    ReachableInv(dbs, es, d);
    RequestUsed(dbs[d], es[d].request);
    a := RequestCameFromAuthorize(dbs, es, d, es[d].request);
    RequestKeepsExpiry(dbs, es, a, d);
    CodeKeepsExpiry(dbs, es, d, x);
    TokenKeepsExpiry(dbs, es, x, i);
  }

  /** The application's row exists, is active and is not deleted. */
  predicate IsActive(db: Db, app: Uid) {
    app in db.policy.apps && db.policy.apps[app].active && !db.policy.apps[app].deleted
  }

  lemma {:induction false} RequestKeepsExpiry(dbs: seq<Db>, es: seq<Event>, a: nat, n: nat)
    requires IsRun(dbs, es) && a < n < |dbs| && es[a].Authorize? && CanAuthorize(dbs[a], es[a])
    ensures es[a].request in dbs[n].used
    ensures es[a].request in dbs[n].requests ==> dbs[n].requests[es[a].request].expiresAt == es[a].expiresAt
  {
    hide Apply, Enabled, CanAuthorize, AskOf;
    assert Next(dbs[n - 1], es[n - 1], dbs[n]);
    if n == a + 1 {
      MadeRequest(dbs[a], es[a]);
    } else {
      RequestKeepsExpiry(dbs, es, a, n - 1);
      StepFrame(dbs[n - 1], es[n - 1], dbs[n]);
    }
  }

  lemma MadeRequest(db: Db, e: Event)
    requires e.Authorize? && CanAuthorize(db, e)
    ensures e.request in Apply(db, e).used && e.request in Apply(db, e).requests
    ensures Apply(db, e).requests[e.request].expiresAt == e.expiresAt
  {
    hide CanAuthorize, AskOf;
  }

  lemma {:induction false} CodeKeepsExpiry(dbs: seq<Db>, es: seq<Event>, d: nat, n: nat)
    requires IsRun(dbs, es) && d < n < |dbs| && es[d].Decide? && Approves(dbs[d], es[d])
    ensures es[d].code in dbs[n].used
    ensures es[d].code in dbs[n].codes ==> dbs[n].codes[es[d].code].expiresAt == es[d].expiresAt
  {
    hide Apply, Enabled, Approves;
    assert Next(dbs[n - 1], es[n - 1], dbs[n]);
    if n == d + 1 {
      MadeCode(dbs[d], es[d]);
    } else {
      CodeKeepsExpiry(dbs, es, d, n - 1);
      StepFrame(dbs[n - 1], es[n - 1], dbs[n]);
    }
  }

  lemma MadeCode(db: Db, e: Event)
    requires e.Decide? && Approves(db, e)
    ensures e.code in Apply(db, e).used && e.code in Apply(db, e).codes
    ensures Apply(db, e).codes[e.code].expiresAt == e.expiresAt
  {
    hide StillGranted;
  }

  lemma {:induction false} TokenKeepsExpiry(dbs: seq<Db>, es: seq<Event>, x: nat, n: nat)
    requires IsRun(dbs, es) && x < n < |dbs| && es[x].Exchange? && CanExchange(dbs[x], es[x])
    ensures es[x].token in dbs[n].used
    ensures es[x].token in dbs[n].tokens ==> dbs[n].tokens[es[x].token].expiresAt == es[x].expiresAt
  {
    hide Apply, Enabled, CanExchange;
    assert Next(dbs[n - 1], es[n - 1], dbs[n]);
    if n == x + 1 {
      MadeToken(dbs[x], es[x]);
    } else {
      TokenKeepsExpiry(dbs, es, x, n - 1);
      StepFrame(dbs[n - 1], es[n - 1], dbs[n]);
    }
  }

  lemma MadeToken(db: Db, e: Event)
    requires e.Exchange? && CanExchange(db, e)
    ensures e.token in Apply(db, e).used && e.token in Apply(db, e).tokens
    ensures Apply(db, e).tokens[e.token].expiresAt == e.expiresAt
  {
    hide StillGranted;
  }

  lemma TokenUsed(db: Db, t: Uid)
    requires Inv(db) && t in db.tokens
    ensures t in db.used && t in db.issuedTokens && db.tokens[t].issue == db.issuedTokens[t]
  {
    hide PolicyOk, TokensCovered, CodesOk, RequestsOk, OneCodeEach, OneTokenEach, PolicyUids;
  }

  /** Re-joining and re-reading the stored scopes, as decision and exchange do, returns the very same list. */
  lemma StoredScopesAreStable(dbs: seq<Db>, es: seq<Event>, i: nat)
    requires IsRun(dbs, es) && i < |dbs|
    ensures forall q | q in dbs[i].requests :: ReadsBack(dbs[i].requests[q].ask.terms.scopes)
    ensures forall c | c in dbs[i].codes :: ReadsBack(dbs[i].codes[c].issue.ask.terms.scopes)
  {
    hide Next, Normalize, Join, NormalForm;
    ReachableInv(dbs, es, i);
    forall q | q in dbs[i].requests ensures ReadsBack(dbs[i].requests[q].ask.terms.scopes) {
      assert TermsOk(dbs[i].issuedRequests[q].terms);
      StoredScopesReadBackUnchanged(dbs[i].requests[q].ask.terms.scopes);
    }
    forall c | c in dbs[i].codes ensures ReadsBack(dbs[i].codes[c].issue.ask.terms.scopes) {
      CodeTermsOk(dbs[i], c);
      StoredScopesReadBackUnchanged(dbs[i].codes[c].issue.ask.terms.scopes);
    }
  }

  predicate ReadsBack(scopes: seq<string>) {
    Normalize(Join(scopes)) == Some((scopes, Custom(scopes)))
  }

  // ----- the policy version -----

  lemma StepKeepsVersions(db: Db, e: Event, db': Db, server: Uid)
    requires Inv(db) && Next(db, e, db') && server in db.policy.servers
    ensures server in db'.policy.servers
    ensures db.policy.servers[server].policyVersion <= db'.policy.servers[server].policyVersion
    ensures ViewOf(db.policy, server) != ViewOf(db'.policy, server) ==>
              db.policy.servers[server].policyVersion < db'.policy.servers[server].policyVersion
  {
    hide PolicyOk, TokensCovered, ChainOk, Accepted, Changed, Revokes, Revoke, ViewOf, FreshFor, AuthorizeDb,
         DecideDb, ExchangeDb;
    if e.Manage? {
      if Accepted(db.policy, e.change) {
        FreshUid(db.policy, db.used, e.change);
        ChangeOfViewRaisesVersion(db.policy, e.change, server);
      }
    }
  }

  /** Equal policy versions at two moments of a run mean the same server state, scopes, grants and assignments. */
  lemma {:induction false} PolicyVersionNamesThePolicy(dbs: seq<Db>, es: seq<Event>, i: nat, j: nat, server: Uid)
    requires IsRun(dbs, es) && i <= j < |dbs| && server in dbs[i].policy.servers
    ensures server in dbs[j].policy.servers
    ensures dbs[i].policy.servers[server].policyVersion <= dbs[j].policy.servers[server].policyVersion
    ensures dbs[i].policy.servers[server].policyVersion == dbs[j].policy.servers[server].policyVersion ==>
              ViewOf(dbs[i].policy, server) == ViewOf(dbs[j].policy, server)
  {
    hide Next, ViewOf, Inv;
    if i < j {
      PolicyVersionNamesThePolicy(dbs, es, i, j - 1, server);
      ReachableInv(dbs, es, j - 1);
      StepKeepsVersions(dbs[j - 1], es[j - 1], dbs[j], server);
    }
  }
}
