/**
 Applications, resource servers, scopes and grants: what each management handler of
 internal/api/authorization_resources.go and internal/api/oauth_applications.go accepts,
 writes, and revokes.
 */
module Policies {
  import opened Common
  import opened Scopes

  datatype App = App(tenant: Uid, active: bool, deleted: bool, version: nat)

  datatype Server = Server(tenant: Uid, identifier: string, active: bool, deleted: bool, version: nat,
      policyVersion: nat)

  datatype Scope = Scope(server: Uid, name: string, active: bool, deleted: bool, version: nat)

  /** `scopes` are the grant's assignment rows. */
  datatype Grant = Grant(tenant: Uid, app: Uid, server: Uid, active: bool, deleted: bool, version: nat,
      scopes: set<Uid>)

  datatype Policy = Policy(
    apps: map<Uid, App>,
    servers: map<Uid, Server>,
    scopes: map<Uid, Scope>,
    grants: map<Uid, Grant>)

  const EMPTY_POLICY: Policy := Policy(map[], map[], map[], map[])

  /** One request to a management handler; `status` is the requested active flag, if any. */
  datatype Change =
    | CreateApp(uid: Uid, tenant: Uid)
    | UpdateApp(uid: Uid, tenant: Uid, expected: nat, status: Option<bool>)
    | DeleteApp(uid: Uid, tenant: Uid, expected: nat)
    | CreateServer(uid: Uid, tenant: Uid, identifier: string)
    | UpdateServer(uid: Uid, tenant: Uid, expected: nat, status: Option<bool>)
    | DeleteServer(uid: Uid, tenant: Uid, expected: nat)
    | CreateScope(uid: Uid, tenant: Uid, server: Uid, name: string)
    | UpdateScope(uid: Uid, tenant: Uid, server: Uid, expected: nat, status: Option<bool>)
    | DeleteScope(uid: Uid, tenant: Uid, server: Uid, expected: nat)
    | CreateGrant(uid: Uid, tenant: Uid, app: Uid, server: Uid, scopes: set<Uid>)
    | UpdateGrant(uid: Uid, tenant: Uid, app: Uid, expected: nat, status: Option<bool>, newScopes: Option<set<Uid>>)
    | DeleteGrant(uid: Uid, tenant: Uid, app: Uid, expected: nat)

  /** Which access tokens a statement revokes. */
  datatype Filter =
    | NoTokens
    | OfApp(app: Uid)
    | OfServer(server: Uid)
    | WithScope(server: Uid, name: string)
    | OfGrant(app: Uid, server: Uid)
    | OfMember(member: Uid)
    | OfConsent(app: Uid, member: Uid, consentServer: Option<Uid>)
    | OneToken(app: Uid, token: Uid)

  predicate Creates(c: Change) {
    c.CreateApp? || c.CreateServer? || c.CreateScope? || c.CreateGrant?
  }

  predicate AppLive(p: Policy, app: Uid) {
    app in p.apps && p.apps[app].active && !p.apps[app].deleted
  }

  predicate ServerLive(p: Policy, server: Uid) {
    server in p.servers && p.servers[server].active && !p.servers[server].deleted
  }

  predicate ScopeLive(p: Policy, u: Uid) {
    u in p.scopes && p.scopes[u].active && !p.scopes[u].deleted
  }

  predicate GrantLive(p: Policy, g: Uid, app: Uid, server: Uid) {
    && g in p.grants && p.grants[g].active && !p.grants[g].deleted
    && p.grants[g].app == app && p.grants[g].server == server
  }

  /** validateGrantResources: one tenant, both sides live, and every scope a live scope of that server. */
  predicate ValidGrantResources(p: Policy, tenant: Uid, app: Uid, server: Uid, scopes: set<Uid>) {
    && AppLive(p, app) && p.apps[app].tenant == tenant
    && ServerLive(p, server) && p.servers[server].tenant == tenant
    && 1 <= |scopes| <= 100
    && forall u | u in scopes :: ScopeLive(p, u) && p.scopes[u].server == server
  }

  predicate NewScopeName(name: string) {
    DelegatedName(name) && !IsOidc(name) && name != OFFLINE
  }

  predicate AppRow(p: Policy, uid: Uid, tenant: Uid, expected: nat) {
    uid in p.apps && p.apps[uid].tenant == tenant && !p.apps[uid].deleted && p.apps[uid].version == expected
  }

  predicate ServerRow(p: Policy, uid: Uid, tenant: Uid) {
    uid in p.servers && p.servers[uid].tenant == tenant && !p.servers[uid].deleted
  }

  predicate ScopeRow(p: Policy, uid: Uid, tenant: Uid, server: Uid, expected: nat) {
    && uid in p.scopes && p.scopes[uid].server == server && !p.scopes[uid].deleted && p.scopes[uid].version == expected
    && ServerRow(p, server, tenant)
  }

  predicate GrantRow(p: Policy, uid: Uid, tenant: Uid, app: Uid, expected: nat) {
    && uid in p.grants && p.grants[uid].app == app && p.grants[uid].tenant == tenant
    && !p.grants[uid].deleted && p.grants[uid].version == expected
  }

  /** The handler gets as far as committing its change. */
  predicate Accepted(p: Policy, c: Change) {
    match c
    case CreateApp(uid, tenant) => true
    case UpdateApp(uid, tenant, expected, status) => AppRow(p, uid, tenant, expected)
    case DeleteApp(uid, tenant, expected) => AppRow(p, uid, tenant, expected)
    case CreateServer(uid, tenant, identifier) =>
      forall s | s in p.servers :: p.servers[s].tenant != tenant || p.servers[s].identifier != identifier
    case UpdateServer(uid, tenant, expected, status) => ServerRow(p, uid, tenant) && p.servers[uid].version == expected
    case DeleteServer(uid, tenant, expected) => ServerRow(p, uid, tenant) && p.servers[uid].version == expected
    case CreateScope(uid, tenant, server, name) =>
      && ServerRow(p, server, tenant) && p.servers[server].active && NewScopeName(name)
      && forall u | u in p.scopes :: p.scopes[u].server != server || p.scopes[u].name != name
    case UpdateScope(uid, tenant, server, expected, status) => ScopeRow(p, uid, tenant, server, expected)
    case DeleteScope(uid, tenant, server, expected) => ScopeRow(p, uid, tenant, server, expected)
    case CreateGrant(uid, tenant, app, server, scopes) =>
      && ValidGrantResources(p, tenant, app, server, scopes)
      && forall g | g in p.grants :: p.grants[g].deleted || p.grants[g].app != app || p.grants[g].server != server
    case UpdateGrant(uid, tenant, app, expected, status, scopes) =>
      && GrantRow(p, uid, tenant, app, expected)
      && (scopes.Some? ==> ValidGrantResources(p, tenant, app, p.grants[uid].server, scopes.value))
    case DeleteGrant(uid, tenant, app, expected) => GrantRow(p, uid, tenant, app, expected)
  }

  function Or(status: Option<bool>, current: bool): bool {
    if status.Some? then status.value else current
  }

  /** Raises the server's policy version. */
  function Bump(p: Policy, server: Uid): Policy {
    if server in p.servers then
      p.(servers := p.servers[server := p.servers[server].(policyVersion := p.servers[server].policyVersion + 1)])
    else p
  }

  function PutApp(p: Policy, uid: Uid, a: App): Policy {
    p.(apps := p.apps[uid := a])
  }

  function PutServer(p: Policy, uid: Uid, s: Server): Policy {
    p.(servers := p.servers[uid := s])
  }

  function PutScope(p: Policy, uid: Uid, s: Scope): Policy {
    p.(scopes := p.scopes[uid := s])
  }

  function PutGrant(p: Policy, uid: Uid, g: Grant): Policy {
    p.(grants := p.grants[uid := g])
  }

  function Changed(p: Policy, c: Change): Policy
    requires Accepted(p, c)
  {
    match c
    case CreateApp(uid, tenant) => PutApp(p, uid, App(tenant, true, false, 1))
    case UpdateApp(uid, tenant, expected, status) =>
      PutApp(p, uid, p.apps[uid].(active := Or(status, p.apps[uid].active), version := expected + 1))
    case DeleteApp(uid, tenant, expected) =>
      PutApp(p, uid, p.apps[uid].(active := false, deleted := true, version := expected + 1))
    case CreateServer(uid, tenant, identifier) => PutServer(p, uid, Server(tenant, identifier, true, false, 1, 1))
    case UpdateServer(uid, tenant, expected, status) =>
      Bump(PutServer(p, uid,
          p.servers[uid].(active := Or(status, p.servers[uid].active), version := expected + 1)), uid)
    case DeleteServer(uid, tenant, expected) =>
      Bump(PutServer(p, uid, p.servers[uid].(active := false, deleted := true, version := expected + 1)), uid)
    case CreateScope(uid, tenant, server, name) => Bump(PutScope(p, uid, Scope(server, name, true, false, 1)), server)
    case UpdateScope(uid, tenant, server, expected, status) =>
      Bump(PutScope(p, uid,
          p.scopes[uid].(active := Or(status, p.scopes[uid].active), version := expected + 1)), server)
    case DeleteScope(uid, tenant, server, expected) =>
      Bump(PutScope(p, uid, p.scopes[uid].(active := false, deleted := true, version := expected + 1)), server)
    case CreateGrant(uid, tenant, app, server, scopes) =>
      Bump(PutGrant(p, uid, Grant(tenant, app, server, true, false, 1, scopes)), server)
    case UpdateGrant(uid, tenant, app, expected, status, scopes) =>
      var g := p.grants[uid];
      Bump(PutGrant(p, uid, g.(active := Or(status, g.active), version := expected + 1,
                               scopes := if scopes.Some? then scopes.value else g.scopes)), g.server)
    case DeleteGrant(uid, tenant, app, expected) =>
      var g := p.grants[uid];
      Bump(PutGrant(p, uid, g.(active := false, deleted := true, version := expected + 1)), g.server)
  }

  /** The tokens revoked in the same transaction. */
  function Revokes(p: Policy, c: Change): Filter
    requires Accepted(p, c)
  {
    match c
    case CreateApp(_, _) => NoTokens
    case UpdateApp(uid, _, _, status) => if Or(status, p.apps[uid].active) then NoTokens else OfApp(uid)
    case DeleteApp(uid, _, _) => OfApp(uid)
    case CreateServer(_, _, _) => NoTokens
    case UpdateServer(uid, _, _, status) => if Or(status, p.servers[uid].active) then NoTokens else OfServer(uid)
    case DeleteServer(uid, _, _) => OfServer(uid)
    case CreateScope(_, _, _, _) => NoTokens
    case UpdateScope(uid, _, server, _, status) =>
      if Or(status, p.scopes[uid].active) then NoTokens else WithScope(server, p.scopes[uid].name)
    case DeleteScope(uid, _, server, _) => WithScope(server, p.scopes[uid].name)
    case CreateGrant(_, _, _, _, _) => NoTokens
    case UpdateGrant(uid, _, app, _, _, _) => OfGrant(app, p.grants[uid].server)
    case DeleteGrant(uid, _, app, _) => OfGrant(app, p.grants[uid].server)
  }

  // ----- what the tables always satisfy -----

  predicate UniqueIdentifiers(p: Policy) {
    forall s, t | s in p.servers && t in p.servers && p.servers[s].tenant == p.servers[t].tenant
                  && p.servers[s].identifier == p.servers[t].identifier :: s == t
  }

  predicate UniqueScopeNames(p: Policy) {
    forall u, v | u in p.scopes && v in p.scopes && p.scopes[u].server == p.scopes[v].server
                  && p.scopes[u].name == p.scopes[v].name :: u == v
  }

  predicate UniqueGrants(p: Policy) {
    forall g, h | g in p.grants && h in p.grants && !p.grants[g].deleted && !p.grants[h].deleted
                  && p.grants[g].app == p.grants[h].app && p.grants[g].server == p.grants[h].server :: g == h
  }

  predicate ScopeOk(p: Policy, u: Uid)
    requires u in p.scopes
  {
    p.scopes[u].server in p.servers && NewScopeName(p.scopes[u].name)
  }

  /** A grant assigns only scopes of its own server. */
  predicate GrantOk(p: Policy, g: Uid)
    requires g in p.grants
  {
    && p.grants[g].server in p.servers
    && forall u | u in p.grants[g].scopes :: u in p.scopes && p.scopes[u].server == p.grants[g].server
  }

  predicate PolicyOk(p: Policy) {
    && UniqueIdentifiers(p) && UniqueScopeNames(p) && UniqueGrants(p)
    && (forall u | u in p.scopes :: ScopeOk(p, u))
    && (forall g | g in p.grants :: GrantOk(p, g))
  }

  /** A created row takes a uid no table has. */
  predicate FreshFor(p: Policy, c: Change) {
    Creates(c) ==> c.uid !in p.apps && c.uid !in p.servers && c.uid !in p.scopes && c.uid !in p.grants
  }

  lemma ChangeKeepsUnique(p: Policy, c: Change)
    requires UniqueIdentifiers(p) && UniqueScopeNames(p) && Accepted(p, c) && FreshFor(p, c)
    ensures UniqueIdentifiers(Changed(p, c)) && UniqueScopeNames(Changed(p, c))
  {
    hide ValidGrantResources, NewScopeName, GrantRow, AppRow;
  }

  lemma ChangeKeepsUniqueGrants(p: Policy, c: Change)
    requires UniqueGrants(p) && Accepted(p, c) && FreshFor(p, c)
    ensures UniqueGrants(Changed(p, c))
  {
    hide ValidGrantResources, NewScopeName, ScopeRow, AppRow;
  }

  lemma ChangeKeepsScopeRefs(p: Policy, c: Change)
    requires (forall u | u in p.scopes :: ScopeOk(p, u)) && Accepted(p, c) && FreshFor(p, c)
    ensures forall u | u in Changed(p, c).scopes :: ScopeOk(Changed(p, c), u)
  {
    hide ValidGrantResources, NewScopeName, AppRow;
    var q := Changed(p, c);
    forall u | u in q.scopes ensures ScopeOk(q, u) {
      assert u in p.scopes ==> ScopeOk(p, u);
    }
  }

  lemma ChangeKeepsGrantRefs(p: Policy, c: Change)
    requires (forall g | g in p.grants :: GrantOk(p, g)) && Accepted(p, c) && FreshFor(p, c)
    ensures forall g | g in Changed(p, c).grants :: GrantOk(Changed(p, c), g)
  {
    hide NewScopeName, AppRow;
    var q := Changed(p, c);
    forall g | g in q.grants ensures GrantOk(q, g) {
      assert g in p.grants ==> GrantOk(p, g);
    }
  }

  lemma ChangeKeepsPolicyOk(p: Policy, c: Change)
    requires PolicyOk(p) && Accepted(p, c) && FreshFor(p, c)
    ensures PolicyOk(Changed(p, c))
  {
    hide Changed, Accepted, UniqueIdentifiers, UniqueScopeNames, UniqueGrants, ScopeOk, GrantOk, FreshFor;
    ChangeKeepsUnique(p, c);
    ChangeKeepsUniqueGrants(p, c);
    ChangeKeepsScopeRefs(p, c);
    ChangeKeepsGrantRefs(p, c);
  }

  // ----- the policy version -----

  /**
   Everything about a server that decides capabilities: its own state, its scopes, its grants and their assignments.
   */
  datatype View = View(active: bool, deleted: bool, scopes: map<Uid, Scope>, grants: map<Uid, Grant>)

  function ViewOf(p: Policy, server: Uid): View
    requires server in p.servers
  {
    View(p.servers[server].active, p.servers[server].deleted,
         map u | u in p.scopes && p.scopes[u].server == server :: p.scopes[u],
         map g | g in p.grants && p.grants[g].server == server :: p.grants[g])
  }

  /** The server whose policy version a change raises. */
  function Bumped(p: Policy, c: Change): Option<Uid>
    requires Accepted(p, c)
  {
    match c
    case UpdateServer(uid, _, _, _) => Some(uid)
    case DeleteServer(uid, _, _) => Some(uid)
    case CreateScope(_, _, server, _) => Some(server)
    case UpdateScope(_, _, server, _, _) => Some(server)
    case DeleteScope(_, _, server, _) => Some(server)
    case CreateGrant(_, _, _, server, _) => Some(server)
    case UpdateGrant(uid, _, _, _, _, _) => Some(p.grants[uid].server)
    case DeleteGrant(uid, _, _, _) => Some(p.grants[uid].server)
    case _ => None
  }

  lemma VersionsMove(p: Policy, c: Change, server: Uid)
    requires PolicyOk(p) && Accepted(p, c) && FreshFor(p, c) && server in p.servers
    ensures server in Changed(p, c).servers
    ensures Bumped(p, c) == Some(server) ==>
              Changed(p, c).servers[server].policyVersion == p.servers[server].policyVersion + 1
    ensures Bumped(p, c) != Some(server) ==> Changed(p, c).servers[server] == p.servers[server]
  {
  }

  lemma OtherScopeStays(p: Policy, c: Change, server: Uid, u: Uid)
    requires Accepted(p, c) && FreshFor(p, c) && Bumped(p, c) != Some(server)
    ensures var q := Changed(p, c);
            && (u in q.scopes && q.scopes[u].server == server <==> u in p.scopes && p.scopes[u].server == server)
            && (u in p.scopes && p.scopes[u].server == server ==> q.scopes[u] == p.scopes[u])
  {
    hide ValidGrantResources, GrantRow, AppRow;
  }

  lemma OtherGrantStays(p: Policy, c: Change, server: Uid, g: Uid)
    requires Accepted(p, c) && FreshFor(p, c) && Bumped(p, c) != Some(server)
    ensures var q := Changed(p, c);
            && (g in q.grants && q.grants[g].server == server <==> g in p.grants && p.grants[g].server == server)
            && (g in p.grants && p.grants[g].server == server ==> q.grants[g] == p.grants[g])
  {
    hide ValidGrantResources, ScopeRow, AppRow, ServerRow;
  }

  /** A change that raises another server's version, or none, leaves this server's scopes and grants alone. */
  lemma OtherRowsStay(p: Policy, c: Change, server: Uid)
    requires Accepted(p, c) && FreshFor(p, c) && server in p.servers && Bumped(p, c) != Some(server)
    requires server in Changed(p, c).servers
    ensures ViewOf(Changed(p, c), server).scopes == ViewOf(p, server).scopes
    ensures ViewOf(Changed(p, c), server).grants == ViewOf(p, server).grants
  {
    hide Changed, Accepted, FreshFor, Bumped;
    var q := Changed(p, c);
    forall u: Uid
      ensures u in q.scopes && q.scopes[u].server == server <==> u in p.scopes && p.scopes[u].server == server
      ensures u in p.scopes && p.scopes[u].server == server ==> q.scopes[u] == p.scopes[u]
    {
      OtherScopeStays(p, c, server, u);
    }
    forall g: Uid
      ensures g in q.grants && q.grants[g].server == server <==> g in p.grants && p.grants[g].server == server
      ensures g in p.grants && p.grants[g].server == server ==> q.grants[g] == p.grants[g]
    {
      OtherGrantStays(p, c, server, g);
    }
  }

  /** No change alters what a server's policy is without raising its policy version. */
  lemma ChangeOfViewRaisesVersion(p: Policy, c: Change, server: Uid)
    requires PolicyOk(p) && Accepted(p, c) && FreshFor(p, c) && server in p.servers
    ensures var q := Changed(p, c);
            && server in q.servers
            && p.servers[server].policyVersion <= q.servers[server].policyVersion
            && (ViewOf(p, server) != ViewOf(q, server)
                ==> p.servers[server].policyVersion < q.servers[server].policyVersion)
  {
    hide Changed, Accepted, PolicyOk, FreshFor;
    VersionsMove(p, c, server);
    if Bumped(p, c) != Some(server) {
      OtherRowsStay(p, c, server);
    }
  }
}
