/** Exactly when requests, codes and tokens come into being over a run, in the columns of the tables. */
module AuthorizationEffects {
  import opened Common
  import opened Scopes
  import opened Policies
  import opened Authorization
  import opened AuthorizationProofs
  import opened AuthorizationRuns

  /** The terms hold now: one live grant of the application covers them on a live server of their tenant. */
  ghost predicate Hold(p: Policy, terms: Terms) {
    terms.server.Some? ==>
      && terms.server.value in p.servers && p.servers[terms.server.value].tenant == terms.tenant
      && Covered(p, terms)
  }

  lemma StillGrantedIffHold(p: Policy, terms: Terms)
    requires PolicyOk(p) && TermsOk(terms) && AppLive(p, terms.app)
    ensures StillGranted(p, terms) <==> Hold(p, terms)
  {
    hide PolicyOk, TermsOk, AppLive, Covered, Resolves;
    if terms.server.Some? {
      if StillGranted(p, terms) || Hold(p, terms) {
        StillGrantedIffCovered(p, terms);
      }
    }
  }

  /**
   A code is redeemed exactly when its row is unconsumed and unexpired, it was issued to this client of this tenant for
   this redirect URI and challenge, application and member are active, and its terms still hold. Only then does the
   exchange change anything, and then it consumes the code and issues the one token.
   */
  lemma ExchangeIff(dbs: seq<Db>, es: seq<Event>, k: nat)
    requires IsRun(dbs, es) && k < |es| && es[k].Exchange?
    ensures var db, e := dbs[k], es[k];
            var redeems :=
              && e.code in db.codes
              && var row := db.codes[e.code];
                 var ask := row.issue.ask;
                 && row.consumedAt.None? && e.at < row.expiresAt
                 && ask.terms.app == e.client && ask.redirectUri == e.redirectUri && ask.challenge == e.challenge
                 && IsActive(db, e.client) && db.policy.apps[e.client].tenant == ask.terms.tenant
                 && row.issue.member in db.members && db.members[row.issue.member].active
                 && Hold(db.policy, ask.terms);
            && (redeems ==>
                  var issue := db.codes[e.code].issue;
                  && dbs[k + 1].codes == db.codes[e.code := db.codes[e.code].(consumedAt := Some(e.at))]
                  && dbs[k + 1].tokens
                     == db.tokens[e.token :=
                          Token(TokenIssue(e.code, issue.member, issue.ask.terms), e.expiresAt, None)])
            && (!redeems ==> dbs[k + 1].codes == db.codes && dbs[k + 1].tokens == db.tokens)
            && dbs[k + 1].requests == db.requests && dbs[k + 1].policy == db.policy && dbs[k + 1].members == db.members
  {
    hide PolicyOk, TermsOk, StillGranted, Hold, RequestsOk, CodesOk, OneCodeEach, TokensOk, OneTokenEach, LogUids,
         PolicyUids, TokensCovered;
    assert Next(dbs[k], es[k], dbs[k + 1]);
    ReachableInv(dbs, es, k);
    if es[k].code in dbs[k].codes {
      CodeTermsOk(dbs[k], es[k].code);
      var terms := dbs[k].codes[es[k].code].issue.ask.terms;
      if AppLive(dbs[k].policy, terms.app) {
        StillGrantedIffHold(dbs[k].policy, terms);
      }
    }
  }

  lemma RequestTermsOk(db: Db, q: Uid)
    requires ChainOk(db) && q in db.requests
    ensures TermsOk(db.requests[q].ask.terms)
  {
    hide TermsOk, CodesOk, OneCodeEach, TokensOk, OneTokenEach, LogUids;
  }

  /**
   A member of the tenant resolves a request exactly while it is pending and unexpired and its application active. A
   denial needs no more; an approval issues the one code exactly when the terms still hold and else changes nothing.
   */
  lemma DecideIff(dbs: seq<Db>, es: seq<Event>, k: nat)
    requires IsRun(dbs, es) && k < |es| && es[k].Decide?
    ensures var db, e := dbs[k], es[k];
            var open :=
              && e.request in db.requests && db.requests[e.request].status == Pending
              && e.at < db.requests[e.request].expiresAt
              && e.member in db.members && db.members[e.member].tenant == e.tenant
              && db.requests[e.request].ask.terms.tenant == e.tenant
              && IsActive(db, db.requests[e.request].ask.terms.app);
            && (open && e.approve && Hold(db.policy, db.requests[e.request].ask.terms) ==>
                  var row := db.requests[e.request];
                  && dbs[k + 1].requests == db.requests[e.request := row.(status := Approved)]
                  && dbs[k + 1].codes
                     == db.codes[e.code := Code(CodeIssue(e.request, e.member, row.ask), e.expiresAt, None)])
            && (open && !e.approve ==>
                  && dbs[k + 1].requests == db.requests[e.request := db.requests[e.request].(status := Denied)]
                  && dbs[k + 1].codes == db.codes)
            && (!open || (e.approve && !Hold(db.policy, db.requests[e.request].ask.terms)) ==>
                  dbs[k + 1].requests == db.requests && dbs[k + 1].codes == db.codes)
            && dbs[k + 1].tokens == db.tokens && dbs[k + 1].policy == db.policy && dbs[k + 1].members == db.members
  {
    hide PolicyOk, TermsOk, StillGranted, Hold, RequestsOk, CodesOk, OneCodeEach, TokensOk, OneTokenEach, LogUids,
         PolicyUids, TokensCovered;
    assert Next(dbs[k], es[k], dbs[k + 1]);
    ReachableInv(dbs, es, k);
    if es[k].request in dbs[k].requests {
      RequestTermsOk(dbs[k], es[k].request);
      var terms := dbs[k].requests[es[k].request].ask.terms;
      if AppLive(dbs[k].policy, terms.app) {
        StillGrantedIffHold(dbs[k].policy, terms);
      }
    }
  }

  /** All that a raw scope string and a resource identifier must satisfy to be authorized on this server. */
  ghost predicate Authorizable(p: Policy, app: Uid, tenant: Uid, raw: string, identifier: Option<string>,
      server: Option<Uid>) {
    && ValidRequest(Fields(raw))
    && var scopes := Normalize(raw).value.0;
       && (identifier.None? ==> server.None? && forall v | v in Fields(raw) :: IsOidc(v))
       && (identifier.Some? ==>
             && server.Some? && (exists v :: v in Fields(raw) && !IsOidc(v))
             && server.value in p.servers && p.servers[server.value].identifier == identifier.value
             && Hold(p, Terms(app, tenant, scopes, server)))
  }

  lemma ResolvesIffAuthorizable(p: Policy, app: Uid, raw: string, identifier: Option<string>, server: Option<Uid>)
    requires PolicyOk(p) && AppLive(p, app)
    ensures Resolves(p, p.apps[app].tenant, app, raw, identifier, server)
            <==> Authorizable(p, app, p.apps[app].tenant, raw, identifier, server)
  {
    hide PolicyOk, Granted, IsOidc, ValidRequest, AssignedBy;
    if ValidRequest(Fields(raw)) {
      NormalizeGivesNormalForm(raw);
      var scopes, custom := Normalize(raw).value.0, Normalize(raw).value.1;
      assert custom != [] ==> custom[0] in custom;
      if identifier.Some? && server.Some? {
        GrantedIffOneGrant(p, app, server.value, custom);
        forall v ensures v in custom <==> v in scopes && !IsOidc(v) {
        }
        var terms := Terms(app, p.apps[app].tenant, scopes, server);
        CoveredIffOneGrant(p, terms, custom);
      }
    }
  }

  /** All names are granted exactly when one live grant assigns them all, once there is any live grant. */
  lemma GrantedIffOneGrant(p: Policy, app: Uid, server: Uid, names: seq<string>)
    requires PolicyOk(p)
    ensures (exists g | g in p.grants :: GrantLive(p, g, app, server))
            && (forall v | v in names :: Granted(p, app, server, v))
            <==> exists g :: OneGrant(p, g, app, server, names)
  {
    hide PolicyOk;
    if (exists g | g in p.grants :: GrantLive(p, g, app, server))
        && (forall v | v in names :: Granted(p, app, server, v)) {
      var g: Uid :| g in p.grants && GrantLive(p, g, app, server);
      forall v | v in names ensures exists u :: AssignedBy(p, g, server, v, u) {
        GrantedByTheGrant(p, app, server, v, g);
      }
      assert OneGrant(p, g, app, server, names);
    }
    if exists g :: OneGrant(p, g, app, server, names) {
      var g: Uid :| OneGrant(p, g, app, server, names);
      forall v | v in names ensures Granted(p, app, server, v) {
        var u: Uid :| AssignedBy(p, g, server, v, u);
      }
    }
  }

  ghost predicate OneGrant(p: Policy, g: Uid, app: Uid, server: Uid, names: seq<string>) {
    GrantLive(p, g, app, server) && forall v | v in names :: exists u :: AssignedBy(p, g, server, v, u)
  }

  lemma CoveredIffOneGrant(p: Policy, terms: Terms, custom: seq<string>)
    requires terms.server.Some? && forall v :: v in custom <==> v in terms.scopes && !IsOidc(v)
    ensures Covered(p, terms)
            <==> && AppLive(p, terms.app) && ServerLive(p, terms.server.value)
                 && exists g :: OneGrant(p, g, terms.app, terms.server.value, custom)
  {
    hide IsOidc, AssignedBy;
    if Covered(p, terms) {
      var g: Uid :| CoveredBy(p, terms, g);
      assert OneGrant(p, g, terms.app, terms.server.value, custom);
    }
    if exists g :: OneGrant(p, g, terms.app, terms.server.value, custom) {
      var g: Uid :| OneGrant(p, g, terms.app, terms.server.value, custom);
      assert GrantLive(p, g, terms.app, terms.server.value) ==> CoveredBy(p, terms, g);
    }
  }

  /** A request is stored exactly when the application is active and what it asks for could be granted right then. */
  lemma AuthorizeIff(dbs: seq<Db>, es: seq<Event>, k: nat)
    requires IsRun(dbs, es) && k < |es| && es[k].Authorize?
    ensures var db, e := dbs[k], es[k];
            var stores := IsActive(db, e.app)
                          && Authorizable(db.policy, e.app, db.policy.apps[e.app].tenant, e.raw,
                              e.identifier, e.server);
            && (stores ==>
                  var terms := Terms(e.app, db.policy.apps[e.app].tenant, Normalize(e.raw).value.0, e.server);
                  dbs[k + 1].requests
                  == db.requests[e.request :=
                       AuthRequest(Ask(terms, e.redirectUri, e.challenge), Pending, e.expiresAt)])
            && (!stores ==> dbs[k + 1].requests == db.requests)
            && dbs[k + 1].codes == db.codes && dbs[k + 1].tokens == db.tokens && dbs[k + 1].policy == db.policy
  {
    hide PolicyOk, ChainOk, TokensCovered, PolicyUids, Resolves, Authorizable, Normalize;
    assert Next(dbs[k], es[k], dbs[k + 1]);
    ReachableInv(dbs, es, k);
    if AppLive(dbs[k].policy, es[k].app) {
      ResolvesIffAuthorizable(dbs[k].policy, es[k].app, es[k].raw, es[k].identifier, es[k].server);
      AuthorizableIsValid(dbs[k].policy, es[k].app, dbs[k].policy.apps[es[k].app].tenant, es[k].raw, es[k].identifier,
                          es[k].server);
    }
  }

  lemma AuthorizableIsValid(p: Policy, app: Uid, tenant: Uid, raw: string, identifier: Option<string>,
      server: Option<Uid>)
    ensures Authorizable(p, app, tenant, raw, identifier, server) ==> Normalize(raw).Some?
  {
  }

  lemma DecideKeepsCode(db: Db, e: Event, c: Uid)
    requires e.Decide? && e.code !in db.used && c in db.used && c in db.codes
    ensures c in DecideDb(db, e).codes && DecideDb(db, e).codes[c] == db.codes[c]
  {
    hide StillGranted;
  }

  lemma StepCode(db: Db, e: Event, c: Uid)
    requires Enabled(db, e) && !e.Exchange? && c in db.used && c in db.codes && c in Apply(db, e).codes
    ensures Apply(db, e).codes[c]
            == if e.Recover? && e.member == db.codes[c].issue.member && db.codes[c].consumedAt.None?
               then db.codes[c].(consumedAt := Some(e.at)) else db.codes[c]
  {
    hide Revoke, AuthorizeDb, ManageDb, DecideDb;
    match e
    case Decide(_, _, _, _, _, _, _) => DecideKeepsCode(db, e, c);
    case _ =>
  }

  /**
   A recovery spends the member's open codes and no others; every other step than an exchange leaves all codes
   alone.
   */
  lemma RecoverySpendsCodes(dbs: seq<Db>, es: seq<Event>, k: nat, c: Uid)
    requires IsRun(dbs, es) && k < |es| && c in dbs[k].codes && c in dbs[k + 1].codes && !es[k].Exchange?
    ensures dbs[k + 1].codes[c]
            == if es[k].Recover? && es[k].member == dbs[k].codes[c].issue.member && dbs[k].codes[c].consumedAt.None?
               then dbs[k].codes[c].(consumedAt := Some(es[k].at)) else dbs[k].codes[c]
  {
    hide Apply, Enabled, Inv;
    assert Next(dbs[k], es[k], dbs[k + 1]);
    ReachableInv(dbs, es, k);
    CodeUsed(dbs[k], c);
    StepCode(dbs[k], es[k], c);
  }
}
