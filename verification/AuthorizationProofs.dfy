/** Every step keeps the authorization invariants. */
module AuthorizationProofs {
  import opened Common
  import opened Scopes
  import opened Policies
  import opened Authorization

  /** A grant that covers a token and survives a change still covers it, unless the change revokes the token. */
  lemma ChangeKeepsGrant(p: Policy, c: Change, uid: Uid, t: Token, g: Uid)
    requires Accepted(p, c) && FreshFor(p, c) && !Hits(Revokes(p, c), uid, t)
    requires t.issue.terms.server.Some? && GrantLive(p, g, t.issue.terms.app, t.issue.terms.server.value)
    ensures var q := Changed(p, c);
            GrantLive(q, g, t.issue.terms.app, t.issue.terms.server.value) && q.grants[g].scopes == p.grants[g].scopes
  {
  }

  lemma ChangeKeepsAssignment(p: Policy, c: Change, uid: Uid, t: Token, name: string, u: Uid)
    requires Accepted(p, c) && FreshFor(p, c) && !Hits(Revokes(p, c), uid, t)
    requires name in t.issue.terms.scopes && ScopeLive(p, u) && p.scopes[u].name == name
    requires t.issue.terms.server == Some(p.scopes[u].server)
    ensures var q := Changed(p, c);
            ScopeLive(q, u) && q.scopes[u].name == name && q.scopes[u].server == p.scopes[u].server
  {
  }

  lemma ChangeKeepsEnds(p: Policy, c: Change, uid: Uid, t: Token)
    requires Accepted(p, c) && FreshFor(p, c) && !Hits(Revokes(p, c), uid, t)
    requires t.issue.terms.server.Some? && AppLive(p, t.issue.terms.app) && ServerLive(p, t.issue.terms.server.value)
    ensures AppLive(Changed(p, c), t.issue.terms.app) && ServerLive(Changed(p, c), t.issue.terms.server.value)
  {
  }

  /** Whatever a change narrows, it revokes the tokens that relied on it. */
  lemma ChangeKeepsCovered(p: Policy, c: Change, uid: Uid, t: Token)
    requires Accepted(p, c) && FreshFor(p, c) && !Hits(Revokes(p, c), uid, t)
    requires Covered(p, t.issue.terms)
    ensures Covered(Changed(p, c), t.issue.terms)
  {
    hide Changed, Accepted, FreshFor, Hits, Revokes;
    var terms := t.issue.terms;
    if terms.server.Some? {
      var g :| CoveredBy(p, terms, g);
      ChangeKeepsEnds(p, c, uid, t);
      ChangeKeepsGrant(p, c, uid, t, g);
      var q := Changed(p, c);
      forall name | name in terms.scopes && !IsOidc(name)
          ensures exists u :: AssignedBy(q, g, terms.server.value, name, u) {
        var u :| AssignedBy(p, g, terms.server.value, name, u);
        ChangeKeepsAssignment(p, c, uid, t, name, u);
        assert AssignedBy(q, g, terms.server.value, name, u);
      }
      assert CoveredBy(q, terms, g);
    }
  }

  /** The lookup by identifier can only find the server the terms were granted for. */
  lemma StoredServerIsFound(p: Policy, terms: Terms, server: Uid)
    requires PolicyOk(p) && terms.server.Some? && terms.server.value in p.servers
    requires p.servers[terms.server.value].tenant == terms.tenant
    requires Resource(p, terms.tenant, terms.app, p.servers[terms.server.value].identifier, server)
    ensures server == terms.server.value
  {
  }

  /** A repeated check that succeeds shows one live grant for every delegated scope in the stored terms. */
  lemma StillGrantedIsCovered(p: Policy, terms: Terms)
    requires PolicyOk(p) && TermsOk(terms) && AppLive(p, terms.app) && StillGranted(p, terms)
    ensures Covered(p, terms)
  {
    hide PolicyOk, Normalize, Granted, NormalForm;
    if terms.server.Some? {
      StoredScopesReadBackUnchanged(terms.scopes);
      var identifier := p.servers[terms.server.value].identifier;
      var server :| server in p.servers
        && Resolves(p, terms.tenant, terms.app, Join(terms.scopes), Some(identifier), Some(server));
      StoredServerIsFound(p, terms, server);
      var g :| GrantLive(p, g, terms.app, server);
      forall name | name in terms.scopes && !IsOidc(name) ensures exists u :: AssignedBy(p, g, server, name, u) {
        GrantedByTheGrant(p, terms.app, server, name, g);
      }
      assert CoveredBy(p, terms, g);
    }
  }

  /** Conversely, one covering grant is all the repeated check asks for. */
  lemma CoveredIsStillGranted(p: Policy, terms: Terms)
    requires PolicyOk(p) && TermsOk(terms) && OfTenant(p, terms) && Covered(p, terms)
    ensures StillGranted(p, terms)
  {
    hide PolicyOk, Normalize, NormalForm, Granted;
    if terms.server.Some? {
      StoredScopesReadBackUnchanged(terms.scopes);
      var server := terms.server.value;
      var identifier := p.servers[server].identifier;
      var g: Uid :| CoveredBy(p, terms, g);
      forall name | name in Custom(terms.scopes) ensures Granted(p, terms.app, server, name) {
        AssignedIsGranted(p, terms, g, name);
      }
      assert Resource(p, terms.tenant, terms.app, identifier, server);
      assert Resolves(p, terms.tenant, terms.app, Join(terms.scopes), Some(identifier), Some(server));
      assert server in p.servers;
    }
  }

  lemma AssignedIsGranted(p: Policy, terms: Terms, g: Uid, name: string)
    requires terms.server.Some? && CoveredBy(p, terms, g) && name in terms.scopes && !IsOidc(name)
    ensures Granted(p, terms.app, terms.server.value, name)
  {
    var u: Uid :| AssignedBy(p, g, terms.server.value, name, u);
    assert g in p.grants && u in p.scopes;
  }

  /** The server the terms name belongs to their tenant. */
  predicate OfTenant(p: Policy, terms: Terms) {
    terms.server.Some? ==> terms.server.value in p.servers && p.servers[terms.server.value].tenant == terms.tenant
  }

  /** The repeated check succeeds exactly when one live grant covers the stored terms on a live server. */
  lemma StillGrantedIffCovered(p: Policy, terms: Terms)
    requires PolicyOk(p) && TermsOk(terms) && OfTenant(p, terms) && AppLive(p, terms.app)
    ensures StillGranted(p, terms) <==> Covered(p, terms)
  {
    hide PolicyOk, TermsOk, OfTenant, AppLive, StillGranted, Covered;
    if StillGranted(p, terms) {
      StillGrantedIsCovered(p, terms);
    }
    if Covered(p, terms) {
      CoveredIsStillGranted(p, terms);
    }
  }

  lemma GrantedByTheGrant(p: Policy, app: Uid, server: Uid, name: string, g: Uid)
    requires PolicyOk(p) && GrantLive(p, g, app, server) && Granted(p, app, server, name)
    ensures exists u :: AssignedBy(p, g, server, name, u)
  {
    var h, u :| h in p.grants && u in p.scopes
      && GrantLive(p, h, app, server) && u in p.grants[h].scopes && ScopeLive(p, u) && p.scopes[u].name == name;
    assert h in p.grants && g in p.grants && h == g;
    assert GrantOk(p, g);
    assert AssignedBy(p, g, server, name, u);
  }

  lemma FreshUid(p: Policy, used: set<Uid>, c: Change)
    requires PolicyUids(p, used) && (Creates(c) ==> c.uid !in used)
    ensures FreshFor(p, c)
  {
  }

  lemma ManageKeepsTokens(p: Policy, tokens: Tokens, loose: set<Uid>, c: Change, at: Instant)
    requires Accepted(p, c) && FreshFor(p, c) && TokensCovered(p, tokens, loose)
    ensures TokensCovered(Changed(p, c), Revoke(tokens, Revokes(p, c), at), loose)
  {
    hide Changed, Accepted, Revokes, Covered, FreshFor;
    var tokens' := Revoke(tokens, Revokes(p, c), at);
    forall t | t in tokens' && t !in loose && tokens'[t].revokedAt.None?
        ensures Covered(Changed(p, c), tokens'[t].issue.terms) {
      assert t in tokens && tokens[t] == tokens'[t];
      ChangeKeepsCovered(p, c, t, tokens[t]);
    }
  }

  lemma RevokeKeepsTokens(p: Policy, tokens: Tokens, loose: set<Uid>, f: Filter, at: Instant)
    requires TokensCovered(p, tokens, loose)
    ensures TokensCovered(p, Revoke(tokens, f, at), loose)
  {
    hide Covered, Hits;
  }

  /** Revoking changes of a token only whether it is revoked. */
  lemma RevokeKeepsIssues(log: TokenLog, tokens: Tokens, codes: CodeLog, f: Filter, at: Instant)
    requires TokensOk(log, tokens, codes)
    ensures TokensOk(log, Revoke(tokens, f, at), codes)
  {
    hide Hits;
  }

  lemma ManageKeepsInv(db: Db, loose: set<Uid>, c: Change, at: Instant)
    requires InvExcept(db, loose) && (Creates(c) ==> c.uid !in db.used)
    ensures InvExcept(ManageDb(db, c, at), loose)
  {
    hide PolicyOk, TokensCovered, RequestsOk, CodesOk, OneCodeEach, TokensOk, OneTokenEach, Accepted, Changed, Revokes,
         Revoke, PolicyUids, FreshFor, LogUids;
    var p := db.policy;
    if Accepted(p, c) {
      FreshUid(p, db.used, c);
      ChangeKeepsPolicyOk(p, c);
      ChangeKeepsUids(p, c, db.used);
      ManageKeepsTokens(p, db.tokens, loose, c, at);
      RevokeKeepsIssues(db.issuedTokens, db.tokens, db.issuedCodes, Revokes(p, c), at);
      MoreUids(db, c.uid);
    }
  }

  lemma ChangeKeepsUids(p: Policy, c: Change, used: set<Uid>)
    requires Accepted(p, c) && PolicyUids(p, used)
    ensures PolicyUids(Changed(p, c), used + {c.uid})
  {
  }

  lemma MoreUids(db: Db, u: Uid)
    ensures PolicyUids(db.policy, db.used) ==> PolicyUids(db.policy, db.used + {u})
    ensures LogUids(db.issuedRequests, db.issuedCodes, db.issuedTokens, db.used)
            ==> LogUids(db.issuedRequests, db.issuedCodes, db.issuedTokens, db.used + {u})
  {
  }

  lemma AuthorizedTermsOk(db: Db, e: Event)
    requires e.Authorize? && CanAuthorize(db, e)
    ensures TermsOk(AskOf(db, e).terms)
  {
    hide Normalize, NormalForm, Resource, Granted;
    NormalizeGivesNormalForm(e.raw);
    var custom := Custom(Normalize(e.raw).value.0);
    assert custom != [] ==> custom[0] in Normalize(e.raw).value.1;
    var asked := Normalize(e.raw).value.1;
    assert asked != [] ==> asked[0] in custom;
  }

  lemma NewRequest(db: Db, q: Uid, row: AuthRequest)
    requires ChainOk(db) && q !in db.used && TermsOk(row.ask.terms) && row.status == Pending
    ensures ChainOk(db.(requests := db.requests[q := row], issuedRequests := db.issuedRequests[q := row.ask],
                        used := db.used + {q}))
  {
    hide TermsOk, TokensOk, OneTokenEach;
  }

  lemma AuthorizeKeepsInv(db: Db, loose: set<Uid>, e: Event)
    requires e.Authorize? && e.request !in db.used && InvExcept(db, loose)
    ensures InvExcept(AuthorizeDb(db, e), loose)
  {
    hide PolicyOk, TokensCovered, RequestsOk, CodesOk, OneCodeEach, TokensOk, OneTokenEach, CanAuthorize, AskOf,
         PolicyUids, LogUids, TermsOk;
    if CanAuthorize(db, e) {
      AuthorizedTermsOk(db, e);
      NewRequest(db, e.request, AuthRequest(AskOf(db, e), Pending, e.expiresAt));
      MoreUids(db, e.request);
    }
  }

  lemma Denying(db: Db, q: Uid)
    requires ChainOk(db) && q in db.requests && db.requests[q].status == Pending
    ensures ChainOk(db.(requests := db.requests[q := db.requests[q].(status := Denied)]))
  {
    hide TermsOk, TokensOk, OneTokenEach, LogUids, CodesOk;
  }

  lemma NewCode(db: Db, q: Uid, c: Uid, row: Code)
    requires ChainOk(db) && q in db.requests && db.requests[q].status == Pending && c !in db.used
    requires row.issue.request == q && row.issue.ask == db.requests[q].ask
    ensures ChainOk(db.(requests := db.requests[q := db.requests[q].(status := Approved)],
                        codes := db.codes[c := row], issuedCodes := db.issuedCodes[c := row.issue],
                        used := db.used + {c}))
  {
    hide TermsOk;
  }

  lemma DecideKeepsInv(db: Db, loose: set<Uid>, e: Event)
    requires e.Decide? && e.code !in db.used && InvExcept(db, loose)
    ensures InvExcept(DecideDb(db, e), loose)
  {
    hide PolicyOk, TokensCovered, RequestsOk, CodesOk, OneCodeEach, TokensOk, OneTokenEach, StillGranted,
         PolicyUids, LogUids;
    if CanDecide(db, e) {
      Denying(db, e.request);
      NewCode(db, e.request, e.code,
              Code(CodeIssue(e.request, e.member, db.requests[e.request].ask), e.expiresAt, None));
      MoreUids(db, e.code);
    }
  }

  lemma NewToken(db: Db, c: Uid, t: Uid, row: Token, at: Instant)
    requires ChainOk(db) && c in db.codes && db.codes[c].consumedAt.None? && t !in db.used
    requires row.issue == TokenIssue(c, db.codes[c].issue.member, db.codes[c].issue.ask.terms)
    ensures ChainOk(db.(codes := db.codes[c := db.codes[c].(consumedAt := Some(at))],
                        tokens := db.tokens[t := row], issuedTokens := db.issuedTokens[t := row.issue],
                        used := db.used + {t}))
  {
    hide TermsOk, RequestsOk, OneCodeEach;
  }

  lemma ExchangeKeepsInv(db: Db, loose: set<Uid>, e: Event)
    requires e.Exchange? && e.token !in db.used && InvExcept(db, loose)
    ensures InvExcept(ExchangeDb(db, e), loose)
  {
    hide PolicyOk, TokensCovered, RequestsOk, CodesOk, OneCodeEach, TokensOk, OneTokenEach, StillGranted, PolicyUids,
         LogUids, TermsOk;
    if CanExchange(db, e) {
      var issue := db.codes[e.code].issue;
      var row := Token(TokenIssue(e.code, issue.member, issue.ask.terms), e.expiresAt, None);
      NewToken(db, e.code, e.token, row, e.at);
      CodeTermsOk(db, e.code);
      StillGrantedIsCovered(db.policy, issue.ask.terms);
      AddCovered(db.policy, db.tokens, loose, e.token, row);
      MoreUids(db, e.token);
    }
  }

  lemma CodeTermsOk(db: Db, c: Uid)
    requires ChainOk(db) && c in db.codes
    ensures TermsOk(db.codes[c].issue.ask.terms)
  {
    hide TermsOk;
  }

  lemma AddCovered(p: Policy, tokens: Tokens, loose: set<Uid>, t: Uid, row: Token)
    requires TokensCovered(p, tokens, loose) && Covered(p, row.issue.terms)
    ensures TokensCovered(p, tokens[t := row], loose)
  {
    hide Covered;
  }

  /** Rows may be deleted, and a recovered member's codes are spent. */
  lemma FewerRows(db: Db, e: Event)
    requires ChainOk(db) && (e.Remove? || e.Recover?)
    ensures e.Remove? ==>
              ChainOk(db.(requests := db.requests - e.requests, codes := db.codes - e.codes,
                          tokens := db.tokens - e.tokens))
    ensures e.Recover? ==> ChainOk(db.(codes := ConsumeCodesOf(db.codes, e.member, e.at)))
  {
    hide TermsOk;
  }

  lemma OtherStepsKeepInv(db: Db, loose: set<Uid>, e: Event)
    requires InvExcept(db, loose) && !e.Manage? && !e.Authorize? && !e.Decide? && !e.Exchange?
    ensures InvExcept(Apply(db, e), loose)
  {
    hide PolicyOk, RequestsOk, CodesOk, OneCodeEach, TokensOk, OneTokenEach, LogUids, TermsOk, Revoke,
         PolicyUids, Covered;
    match e
    case AddMember(member, _, _) => MoreUids(db, member);
    case SetMember(_, _, _) =>
    case Recover(member, at) =>
      FewerRows(db, e);
      RevokeKeepsTokens(db.policy, db.tokens, loose, OfMember(member), at);
      RevokeKeepsIssues(db.issuedTokens, db.tokens, db.issuedCodes, OfMember(member), at);
    case RevokeToken(client, token, at) =>
      RevokeKeepsTokens(db.policy, db.tokens, loose, OneToken(client, token), at);
      RevokeKeepsIssues(db.issuedTokens, db.tokens, db.issuedCodes, OneToken(client, token), at);
    case RevokeConsent(app, member, server, at) =>
      RevokeKeepsTokens(db.policy, db.tokens, loose, OfConsent(app, member, server), at);
      RevokeKeepsIssues(db.issuedTokens, db.tokens, db.issuedCodes, OfConsent(app, member, server), at);
    case Remove(_, _, _, _, _) => FewerRows(db, e);
  }

  lemma StepKeepsInv(db: Db, loose: set<Uid>, e: Event, db': Db)
    requires InvExcept(db, loose) && Next(db, e, db')
    ensures InvExcept(db', loose)
  {
    hide InvExcept, ManageDb, AuthorizeDb, DecideDb, ExchangeDb;
    match e
    case Manage(c, at) => ManageKeepsInv(db, loose, c, at);
    case Authorize(_, _, _, _, _, _, _, _, _) => AuthorizeKeepsInv(db, loose, e);
    case Decide(_, _, _, _, _, _, _) => DecideKeepsInv(db, loose, e);
    case Exchange(_, _, _, _, _, _, _) => ExchangeKeepsInv(db, loose, e);
    case _ => OtherStepsKeepInv(db, loose, e);
  }

  lemma InitOk(now: Instant)
    ensures Inv(Init(now))
  {
  }

  lemma {:induction false} ReachableInv(dbs: seq<Db>, es: seq<Event>, i: nat)
    requires IsRun(dbs, es) && i < |dbs|
    ensures Inv(dbs[i])
  {
    hide Next, InvExcept;
    if i == 0 {
      InitOk(dbs[0].now);
    } else {
      ReachableInv(dbs, es, i - 1);
      StepKeepsInv(dbs[i - 1], {}, es[i - 1], dbs[i]);
    }
  }
}
