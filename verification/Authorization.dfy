/**
 Delegated authorization from request to code to access token (internal/api/oauth_authorization.go),
 over the policy tables, with every transaction as one step.
 */
module Authorization {
  import opened Common
  import opened Scopes
  import opened Policies

  datatype Member = Member(tenant: Uid, active: bool)

  /** What the member is asked to agree to; carried from request to code to token. */
  datatype Terms = Terms(app: Uid, tenant: Uid, scopes: seq<string>, server: Option<Uid>)

  /** The terms with what ties the code to its client: the redirect URI and the PKCE challenge. */
  datatype Ask = Ask(terms: Terms, redirectUri: string, challenge: string)

  datatype RequestStatus = Pending | Approved | Denied

  datatype AuthRequest = AuthRequest(ask: Ask, status: RequestStatus, expiresAt: Instant)

  datatype CodeIssue = CodeIssue(request: Uid, member: Uid, ask: Ask)

  datatype Code = Code(issue: CodeIssue, expiresAt: Instant, consumedAt: Option<Instant>)

  datatype TokenIssue = TokenIssue(code: Uid, member: Uid, terms: Terms)

  datatype Token = Token(issue: TokenIssue, expiresAt: Instant, revokedAt: Option<Instant>)

  type Requests = map<Uid, AuthRequest>
  type Codes = map<Uid, Code>
  type Tokens = map<Uid, Token>
  type RequestLog = map<Uid, Ask>
  type CodeLog = map<Uid, CodeIssue>
  type TokenLog = map<Uid, TokenIssue>

  /** The issue logs are history that no step reads: rows are deleted, the logs are not. */
  datatype Db = Db(
    now: Instant,
    policy: Policy,
    members: map<Uid, Member>,
    requests: Requests,
    codes: Codes,
    tokens: Tokens,
    issuedRequests: RequestLog,
    issuedCodes: CodeLog,
    issuedTokens: TokenLog,
    used: set<Uid>)

  function Init(now: Instant): Db {
    Db(now, EMPTY_POLICY, map[], map[], map[], map[], map[], map[], map[], {})
  }

  datatype Event =
    | Manage(change: Change, at: Instant)
    | AddMember(member: Uid, tenant: Uid, at: Instant)
    | SetMember(member: Uid, active: bool, at: Instant)
    | Recover(member: Uid, at: Instant)
    | Authorize(request: Uid, app: Uid, raw: string, identifier: Option<string>, server: Option<Uid>,
                redirectUri: string, challenge: string, expiresAt: Instant, at: Instant)
    | Decide(request: Uid, member: Uid, tenant: Uid, approve: bool, code: Uid, expiresAt: Instant, at: Instant)
    | Exchange(code: Uid, client: Uid, redirectUri: string, challenge: string, token: Uid, expiresAt: Instant,
        at: Instant)
    | RevokeToken(client: Uid, token: Uid, at: Instant)
    | RevokeConsent(app: Uid, member: Uid, consentServer: Option<Uid>, at: Instant)
    | Remove(requests: set<Uid>, codes: set<Uid>, tokens: set<Uid>, members: set<Uid>, at: Instant)

  predicate Hits(f: Filter, uid: Uid, t: Token) {
    var terms := t.issue.terms;
    match f
    case NoTokens => false
    case OfApp(app) => terms.app == app
    case OfServer(server) => terms.server == Some(server)
    case WithScope(server, name) => terms.server == Some(server) && name in terms.scopes
    case OfGrant(app, server) => terms.app == app && terms.server == Some(server)
    case OfMember(member) => t.issue.member == member
    case OfConsent(app, member, server) => terms.app == app && t.issue.member == member && terms.server == server
    case OneToken(app, token) => terms.app == app && uid == token
  }

  /** Stamps the tokens the filter hits, except those that are stamped already. */
  function Revoke(tokens: Tokens, f: Filter, at: Instant): Tokens {
    map u | u in tokens ::
      if Hits(f, u, tokens[u]) && tokens[u].revokedAt.None? then tokens[u].(revokedAt := Some(at)) else tokens[u]
  }

  /** Some live grant of the application on this server assigns a live scope of this name. */
  predicate Granted(p: Policy, app: Uid, server: Uid, name: string) {
    exists g, u | g in p.grants && u in p.scopes ::
      GrantLive(p, g, app, server) && u in p.grants[g].scopes && ScopeLive(p, u) && p.scopes[u].name == name
  }

  /** The row the resource lookup returns. */
  predicate Resource(p: Policy, tenant: Uid, app: Uid, identifier: string, server: Uid) {
    && ServerLive(p, server) && p.servers[server].tenant == tenant && p.servers[server].identifier == identifier
    && exists g | g in p.grants :: GrantLive(p, g, app, server)
  }

  /** resolveAuthorizationScopes succeeds and answers with this server. */
  predicate Resolves(p: Policy, tenant: Uid, app: Uid, raw: string, identifier: Option<string>, server: Option<Uid>) {
    && Normalize(raw).Some?
    && var custom := Normalize(raw).value.1;
       if identifier.None? then custom == [] && server.None?
       else
         && custom != [] && server.Some? && Resource(p, tenant, app, identifier.value, server.value)
         && forall name | name in custom :: Granted(p, app, server.value, name)
  }

  /** The check repeated at decision and at exchange: the server is live and the stored scopes still resolve. */
  predicate StillGranted(p: Policy, terms: Terms) {
    terms.server.Some? ==>
      && ServerLive(p, terms.server.value) && p.servers[terms.server.value].tenant == terms.tenant
      && exists server | server in p.servers ::
           Resolves(p, terms.tenant, terms.app, Join(terms.scopes), Some(p.servers[terms.server.value].identifier),
               Some(server))
  }

  predicate CanAuthorize(db: Db, e: Event)
    requires e.Authorize?
  {
    AppLive(db.policy, e.app)
    && Resolves(db.policy, db.policy.apps[e.app].tenant, e.app, e.raw, e.identifier, e.server)
  }

  /** What a successful authorization request asks for. */
  function AskOf(db: Db, e: Event): Ask
    requires e.Authorize? && CanAuthorize(db, e)
  {
    Ask(Terms(e.app, db.policy.apps[e.app].tenant, Normalize(e.raw).value.0, e.server), e.redirectUri, e.challenge)
  }

  predicate CanDecide(db: Db, e: Event)
    requires e.Decide?
  {
    && e.request in db.requests && e.member in db.members && db.members[e.member].tenant == e.tenant
    && var q := db.requests[e.request];
       AppLive(db.policy, q.ask.terms.app) && q.ask.terms.tenant == e.tenant && q.status == Pending
           && e.at < q.expiresAt
  }

  /** The decision issues a code. */
  predicate Approves(db: Db, e: Event)
    requires e.Decide?
  {
    CanDecide(db, e) && e.approve && StillGranted(db.policy, db.requests[e.request].ask.terms)
  }

  predicate CanExchange(db: Db, e: Event)
    requires e.Exchange?
  {
    && e.code in db.codes
    && var c := db.codes[e.code];
       var terms := c.issue.ask.terms;
       && AppLive(db.policy, terms.app) && terms.app == e.client && terms.tenant == db.policy.apps[e.client].tenant
       && c.issue.ask.redirectUri == e.redirectUri && c.issue.ask.challenge == e.challenge
       && c.consumedAt.None? && e.at < c.expiresAt
       && c.issue.member in db.members && db.members[c.issue.member].active
       && StillGranted(db.policy, terms)
  }

  /**
   Time moves forward and a new row takes a uid never used before; whether the handler accepts is decided in Apply.
   */
  predicate Enabled(db: Db, e: Event) {
    && db.now <= e.at
    && match e
       case Manage(change, at) => Creates(change) ==> change.uid !in db.used
       case AddMember(member, tenant, at) => member !in db.used
       case Authorize(request, _, _, _, _, _, _, _, at) => request !in db.used
       case Decide(_, _, _, _, code, _, at) => code !in db.used
       case Exchange(_, _, _, _, token, _, at) => token !in db.used
       case _ => true
  }

  function ManageDb(db: Db, c: Change, at: Instant): (r: Db)
    ensures r.issuedRequests == db.issuedRequests && r.issuedCodes == db.issuedCodes
            && r.issuedTokens == db.issuedTokens
    ensures r.requests == db.requests && r.codes == db.codes
  {
    if Accepted(db.policy, c) then
      db.(now := at, policy := Changed(db.policy, c), tokens := Revoke(db.tokens, Revokes(db.policy, c), at),
          used := db.used + {c.uid})
    else db.(now := at)
  }

  function AuthorizeDb(db: Db, e: Event): (r: Db)
    requires e.Authorize?
    ensures r.policy == db.policy && r.issuedCodes == db.issuedCodes && r.issuedTokens == db.issuedTokens
    ensures r.codes == db.codes && r.tokens == db.tokens
  {
    if CanAuthorize(db, e) then
      db.(now := e.at, requests := db.requests[e.request := AuthRequest(AskOf(db, e), Pending, e.expiresAt)],
          issuedRequests := db.issuedRequests[e.request := AskOf(db, e)], used := db.used + {e.request})
    else db.(now := e.at)
  }

  /** A refusal because the grant changed leaves the request pending. */
  function DecideDb(db: Db, e: Event): (r: Db)
    requires e.Decide?
    ensures r.policy == db.policy && r.issuedRequests == db.issuedRequests && r.issuedTokens == db.issuedTokens
    ensures r.tokens == db.tokens
  {
    if !CanDecide(db, e) then db.(now := e.at)
    else
      var q := db.requests[e.request];
      if !e.approve then db.(now := e.at, requests := db.requests[e.request := q.(status := Denied)])
      else if !Approves(db, e) then db.(now := e.at)
      else
        var issue := CodeIssue(e.request, e.member, q.ask);
        db.(now := e.at, requests := db.requests[e.request := q.(status := Approved)],
            codes := db.codes[e.code := Code(issue, e.expiresAt, None)],
            issuedCodes := db.issuedCodes[e.code := issue], used := db.used + {e.code})
  }

  function ExchangeDb(db: Db, e: Event): (r: Db)
    requires e.Exchange?
    ensures r.policy == db.policy && r.issuedRequests == db.issuedRequests && r.issuedCodes == db.issuedCodes
  {
    if !CanExchange(db, e) then db.(now := e.at)
    else
      var c := db.codes[e.code];
      var issue := TokenIssue(e.code, c.issue.member, c.issue.ask.terms);
      db.(now := e.at, codes := db.codes[e.code := c.(consumedAt := Some(e.at))],
          tokens := db.tokens[e.token := Token(issue, e.expiresAt, None)],
          issuedTokens := db.issuedTokens[e.token := issue], used := db.used + {e.token})
  }

  function ConsumeCodesOf(codes: Codes, member: Uid, at: Instant): Codes {
    map u | u in codes ::
      if codes[u].issue.member == member && codes[u].consumedAt.None? then codes[u].(consumedAt := Some(at))
      else codes[u]
  }

  function Apply(db: Db, e: Event): (r: Db)
    ensures !e.Manage? ==> r.policy == db.policy
  {
    match e
    case Manage(change, at) => ManageDb(db, change, at)
    case AddMember(member, tenant, at) =>
      db.(now := at, members := db.members[member := Member(tenant, true)], used := db.used + {member})
    case SetMember(member, active, at) =>
      if member in db.members then
        db.(now := at, members := db.members[member := db.members[member].(active := active)])
      else db.(now := at)
    case Recover(member, at) =>
      db.(now := at, tokens := Revoke(db.tokens, OfMember(member), at), codes := ConsumeCodesOf(db.codes, member, at))
    case Authorize(_, _, _, _, _, _, _, _, _) => AuthorizeDb(db, e)
    case Decide(_, _, _, _, _, _, _) => DecideDb(db, e)
    case Exchange(_, _, _, _, _, _, _) => ExchangeDb(db, e)
    case RevokeToken(client, token, at) => db.(now := at, tokens := Revoke(db.tokens, OneToken(client, token), at))
    case RevokeConsent(app, member, server, at) =>
      db.(now := at, tokens := Revoke(db.tokens, OfConsent(app, member, server), at))
    case Remove(requests, codes, tokens, members, at) =>
      db.(now := at, requests := db.requests - requests, codes := db.codes - codes, tokens := db.tokens - tokens,
          members := db.members - members)
  }

  ghost predicate Next(db: Db, e: Event, db': Db) {
    Enabled(db, e) && db' == Apply(db, e)
  }

  ghost predicate IsRun(dbs: seq<Db>, es: seq<Event>) {
    && |dbs| == |es| + 1
    && dbs[0] == Init(dbs[0].now)
    && forall i | 0 <= i < |es| :: Next(dbs[i], es[i], dbs[i + 1])
  }

  // ----- invariants -----

  predicate PolicyUids(p: Policy, used: set<Uid>) {
    p.apps.Keys <= used && p.servers.Keys <= used && p.scopes.Keys <= used && p.grants.Keys <= used
  }

  predicate LogUids(requests: RequestLog, codes: CodeLog, tokens: TokenLog, used: set<Uid>) {
    requests.Keys <= used && codes.Keys <= used && tokens.Keys <= used
  }

  /** A live scope of the server with this name, assigned by grant g. */
  predicate AssignedBy(p: Policy, g: Uid, server: Uid, name: string, u: Uid) {
    g in p.grants && u in p.grants[g].scopes && ScopeLive(p, u) && p.scopes[u].server == server
        && p.scopes[u].name == name
  }

  /** Grant g covers every delegated scope of the terms. */
  ghost predicate CoveredBy(p: Policy, terms: Terms, g: Uid)
    requires terms.server.Some?
  {
    && GrantLive(p, g, terms.app, terms.server.value)
    && forall name | name in terms.scopes && !IsOidc(name) :: exists u :: AssignedBy(p, g, terms.server.value, name, u)
  }

  /** Terms bound to a server rest on a live application, a live server and one live grant for all delegated scopes. */
  ghost predicate Covered(p: Policy, terms: Terms) {
    terms.server.Some? ==>
      && AppLive(p, terms.app) && ServerLive(p, terms.server.value)
      && exists g :: CoveredBy(p, terms, g)
  }

  /** Every unrevoked token but the loose ones is covered. */
  ghost predicate TokensCovered(p: Policy, tokens: Tokens, loose: set<Uid>) {
    forall t | t in tokens && t !in loose && tokens[t].revokedAt.None? :: Covered(p, tokens[t].issue.terms)
  }

  /** A stored scope list in normal form, bound to a server exactly when it has delegated scopes. */
  ghost predicate TermsOk(terms: Terms) {
    NormalForm(terms.scopes) && (terms.server.None? <==> Custom(terms.scopes) == [])
  }

  /** Every request was made with terms in normal form, and its row still carries what was asked. */
  ghost predicate RequestsOk(log: RequestLog, requests: Requests) {
    && (forall q | q in log :: TermsOk(log[q].terms))
    && (forall q | q in requests :: q in log && requests[q].ask == log[q])
  }

  /** Every code was made for what its request asked, and its row still carries it. */
  predicate CodesOk(log: CodeLog, codes: Codes, requests: RequestLog) {
    && (forall c | c in log :: log[c].request in requests && log[c].ask == requests[log[c].request])
    && (forall c | c in codes :: c in log && codes[c].issue == log[c])
  }

  /** No request has two codes, and one that is not approved has none. */
  predicate OneCodeEach(log: CodeLog, requests: Requests) {
    && (forall c, d | c in log && d in log && log[c].request == log[d].request :: c == d)
    && (forall c | c in log && log[c].request in requests :: requests[log[c].request].status == Approved)
  }

  /** Every token was made with its code's member and terms, and its row still carries them. */
  predicate TokensOk(log: TokenLog, tokens: Tokens, codes: CodeLog) {
    && (forall t | t in log ::
          && log[t].code in codes && log[t].member == codes[log[t].code].member
          && log[t].terms == codes[log[t].code].ask.terms)
    && (forall t | t in tokens :: t in log && tokens[t].issue == log[t])
  }

  /** No code has two tokens, and an unconsumed one has none. */
  predicate OneTokenEach(log: TokenLog, codes: Codes) {
    && (forall t, u | t in log && u in log && log[t].code == log[u].code :: t == u)
    && (forall t | t in log && log[t].code in codes :: codes[log[t].code].consumedAt.Some?)
  }

  ghost predicate ChainOk(db: Db) {
    && RequestsOk(db.issuedRequests, db.requests)
    && CodesOk(db.issuedCodes, db.codes, db.issuedRequests) && OneCodeEach(db.issuedCodes, db.requests)
    && TokensOk(db.issuedTokens, db.tokens, db.issuedCodes) && OneTokenEach(db.issuedTokens, db.codes)
    && LogUids(db.issuedRequests, db.issuedCodes, db.issuedTokens, db.used)
  }

  ghost predicate InvExcept(db: Db, loose: set<Uid>) {
    PolicyOk(db.policy) && PolicyUids(db.policy, db.used) && TokensCovered(db.policy, db.tokens, loose) && ChainOk(db)
  }

  ghost predicate Inv(db: Db) {
    InvExcept(db, {})
  }
}
