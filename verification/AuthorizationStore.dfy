/**
 The handlers of internal/api/authorization_resources.go, internal/api/oauth_applications.go and
 internal/api/oauth_authorization.go, statement by statement over the tables they update.
 */
module AuthorizationStore {
  import opened Common
  import opened Scopes
  import opened Policies
  import opened Authorization

  datatype Outcome = Done | NotFound | VersionConflict | Refused

  datatype ResolveError = BadScope(error: ScopeError) | ResourceRequired | DelegatedScopeRequired | NotGranted
      | ScopeNotGranted(scope: string)

  predicate Unique(values: seq<Uid>) {
    forall i, j | 0 <= i < j < |values| :: values[i] != values[j]
  }

  predicate UidsOk(values: seq<Uid>) {
    1 <= |values| <= 100 && Unique(values)
  }

  function Sets(values: Option<seq<Uid>>): Option<set<Uid>> {
    if values.Some? then Some(SetOf(values.value)) else None
  }

  function SetOf(values: seq<Uid>): set<Uid> {
    set u | u in values
  }

  lemma {:induction false} UniqueSize(values: seq<Uid>)
    requires Unique(values)
    ensures |SetOf(values)| == |values|
  {
    if values != [] {
      var n := |values| - 1;
      UniqueSize(values[..n]);
      assert SetOf(values) == SetOf(values[..n]) + {values[n]};
    }
  }

  lemma SubsetSize(sub: set<Uid>, all: set<Uid>)
    requires sub <= all
    ensures |sub| == |all| <==> sub == all
  {
    assert all == sub + (all - sub);
  }

  lemma RevokeNothing(tokens: Tokens, at: Instant)
    ensures Revoke(tokens, NoTokens, at) == tokens
  {
  }

  /** normalizeScopeUIDs. */
  method NormalizeScopeUids(values: seq<Uid>) returns (ok: bool)
    ensures ok <==> UidsOk(values)
  {
    if |values| == 0 || |values| > 100 {
      return false;
    }
    var seen: set<Uid> := {};
    for n := 0 to |values|
      invariant Unique(values[..n])
      invariant forall u :: u in seen <==> u in values[..n]
    {
      if values[n] in seen {
        return false;
      }
      seen := seen + {values[n]};
      assert values[..n + 1] == values[..n] + [values[n]];
    }
    assert values[..|values|] == values;
    return true;
  }

  /** validateGrantResources: counting the live scopes decides whether all of them are. */
  method ValidateGrantResources(p: Policy, tenant: Uid, app: Uid, server: Uid, values: seq<Uid>) returns (ok: bool)
    requires UidsOk(values)
    ensures ok <==> ValidGrantResources(p, tenant, app, server, SetOf(values))
  {
    if app !in p.apps || server !in p.servers || p.apps[app].tenant != tenant || p.servers[server].tenant != tenant
       || p.apps[app].deleted || p.servers[server].deleted || !p.apps[app].active || !p.servers[server].active {
      return false;
    }
    var found := set u | u in SetOf(values) && ScopeLive(p, u) && p.scopes[u].server == server;
    ok := |found| == |values|;
    UniqueSize(values);
    SubsetSize(found, SetOf(values));
  }

  /** resolveAuthorizationScopes. */
  method ResolveAuthorizationScopes(p: Policy, tenant: Uid, app: Uid, raw: string, identifier: Option<string>)
    returns (r: Result<(seq<string>, Option<Uid>), ResolveError>)
    requires UniqueIdentifiers(p)
    ensures r.Ok? ==> Resolves(p, tenant, app, raw, identifier, r.value.1) && r.value.0 == Normalize(raw).value.0
    ensures r.Err? ==> forall server :: !Resolves(p, tenant, app, raw, identifier, server)
  {
    var n := NormalizeRequestedScopes(raw);
    if n.Err? {
      return Err(BadScope(n.error));
    }
    var (values, custom) := n.value;
    if identifier.None? {
      if |custom| > 0 {
        return Err(ResourceRequired);
      }
      return Ok((values, None));
    }
    if |custom| == 0 {
      return Err(DelegatedScopeRequired);
    }
    if !exists s | s in p.servers :: Resource(p, tenant, app, identifier.value, s) {
      return Err(NotGranted);
    }
    var server :| server in p.servers && Resource(p, tenant, app, identifier.value, server);
    var granted := set g, u | g in p.grants && u in p.scopes && GrantLive(p, g, app, server) && u in p.grants[g].scopes
                              && ScopeLive(p, u) :: p.scopes[u].name;
    for i := 0 to |custom|
      invariant forall j | 0 <= j < i :: Granted(p, app, server, custom[j])
    {
      if custom[i] !in granted {
        assert !Granted(p, app, server, custom[i]);
        return Err(ScopeNotGranted(custom[i]));
      }
    }
    return Ok((values, Some(server)));
  }

  /**
   A management handler is done exactly when the change is accepted; then tables and tokens are as it says, else
   untouched.
   */
  ghost predicate Managed(p: Policy, tokens: Tokens, c: Change, at: Instant, o: Outcome, p': Policy, tokens': Tokens) {
    && (o == Done <==> Accepted(p, c))
    && (o == Done ==> p' == Changed(p, c) && tokens' == Revoke(tokens, Revokes(p, c), at))
    && (o != Done ==> p' == p && tokens' == tokens)
  }

  class Store {
    var apps: map<Uid, App>
    var servers: map<Uid, Server>
    var scopes: map<Uid, Scope>
    var grants: map<Uid, Grant>
    var members: map<Uid, Member>
    var requests: Requests
    var codes: Codes
    var tokens: Tokens

    function Tables(): Policy
      reads this
    {
      Policy(apps, servers, scopes, grants)
    }

    /** The rows with an empty history, which no handler reads. */
    function Rows(): Db
      reads this
    {
      Db(0, Tables(), members, requests, codes, tokens, map[], map[], map[], {})
    }

    constructor ()
      ensures Rows() == Init(0)
    {
      apps, servers, scopes, grants, members, requests, codes, tokens := map[], map[], map[], map[], map[], map[],
          map[], map[];
    }

    /** Marks that the server's policy changed. */
    method RaisePolicyVersion(server: Uid)
      modifies this`servers
      ensures Tables() == Bump(old(Tables()), server)
    {
      if server in servers {
        servers := servers[server := servers[server].(policyVersion := servers[server].policyVersion + 1)];
      }
    }

    method UpdateApplication(uid: Uid, tenant: Uid, expected: nat, status: Option<bool>, at: Instant)
        returns (o: Outcome)
      modifies this`apps, this`tokens
      ensures Managed(old(Tables()), old(tokens), UpdateApp(uid, tenant, expected, status), at, o, Tables(), tokens)
    {
      if uid !in apps || apps[uid].tenant != tenant || apps[uid].deleted {
        return NotFound;
      }
      var row := apps[uid];
      if row.version != expected {
        return VersionConflict;
      }
      if status.Some? {
        row := row.(active := status.value);
      }
      apps := apps[uid := row.(version := row.version + 1)];
      RevokeNothing(tokens, at);
      if !row.active {
        tokens := Revoke(tokens, OfApp(uid), at);
      }
      o := Done;
    }

    method DeleteApplication(uid: Uid, tenant: Uid, expected: nat, at: Instant) returns (o: Outcome)
      modifies this`apps, this`tokens
      ensures Managed(old(Tables()), old(tokens), DeleteApp(uid, tenant, expected), at, o, Tables(), tokens)
    {
      if uid !in apps || apps[uid].tenant != tenant || apps[uid].deleted {
        return NotFound;
      }
      var row := apps[uid];
      if row.version != expected {
        return VersionConflict;
      }
      apps := apps[uid := row.(active := false, deleted := true, version := row.version + 1)];
      tokens := Revoke(tokens, OfApp(uid), at);
      o := Done;
    }

    method CreateResourceServer(uid: Uid, tenant: Uid, identifier: string, at: Instant) returns (o: Outcome)
      modifies this`servers
      ensures Managed(old(Tables()), tokens, CreateServer(uid, tenant, identifier), at, o, Tables(), tokens)
    {
      if exists s | s in servers :: servers[s].tenant == tenant && servers[s].identifier == identifier {
        return Refused;
      }
      servers := servers[uid := Server(tenant, identifier, true, false, 1, 1)];
      RevokeNothing(tokens, at);
      o := Done;
    }

    method UpdateResourceServer(uid: Uid, tenant: Uid, expected: nat, status: Option<bool>, at: Instant)
        returns (o: Outcome)
      modifies this`servers, this`tokens
      ensures Managed(old(Tables()), old(tokens), UpdateServer(uid, tenant, expected, status), at, o, Tables(), tokens)
    {
      if uid !in servers || servers[uid].tenant != tenant || servers[uid].deleted {
        return NotFound;
      }
      var row := servers[uid];
      if row.version != expected {
        return VersionConflict;
      }
      if status.Some? {
        row := row.(active := status.value);
      }
      servers := servers[uid := row.(version := row.version + 1, policyVersion := row.policyVersion + 1)];
      RevokeNothing(tokens, at);
      if !row.active {
        tokens := Revoke(tokens, OfServer(uid), at);
      }
      o := Done;
    }

    method DeleteResourceServer(uid: Uid, tenant: Uid, expected: nat, at: Instant) returns (o: Outcome)
      modifies this`servers, this`tokens
      ensures Managed(old(Tables()), old(tokens), DeleteServer(uid, tenant, expected), at, o, Tables(), tokens)
    {
      if uid !in servers || servers[uid].tenant != tenant || servers[uid].deleted {
        return NotFound;
      }
      var row := servers[uid];
      if row.version != expected {
        return VersionConflict;
      }
      servers := servers[uid := row.(active := false, deleted := true, version := row.version + 1,
                                     policyVersion := row.policyVersion + 1)];
      tokens := Revoke(tokens, OfServer(uid), at);
      o := Done;
    }

    method CreateResourceServerScope(uid: Uid, tenant: Uid, server: Uid, name: string, at: Instant) returns (o: Outcome)
      modifies this`scopes, this`servers
      ensures Managed(old(Tables()), tokens, CreateScope(uid, tenant, server, name), at, o, Tables(), tokens)
    {
      if !NewScopeName(name) {
        return Refused;
      }
      if server !in servers || servers[server].tenant != tenant || servers[server].deleted {
        return NotFound;
      }
      if !servers[server].active || exists u | u in scopes :: scopes[u].server == server && scopes[u].name == name {
        return Refused;
      }
      scopes := scopes[uid := Scope(server, name, true, false, 1)];
      RaisePolicyVersion(server);
      RevokeNothing(tokens, at);
      o := Done;
    }

    method UpdateResourceServerScope(uid: Uid, tenant: Uid, server: Uid, expected: nat, status: Option<bool>,
        at: Instant)
      returns (o: Outcome)
      modifies this`scopes, this`servers, this`tokens
      ensures Managed(old(Tables()), old(tokens), UpdateScope(uid, tenant, server, expected, status), at, o,
              Tables(), tokens)
    {
      if uid !in scopes || scopes[uid].server != server || scopes[uid].deleted
         || server !in servers || servers[server].tenant != tenant || servers[server].deleted {
        return NotFound;
      }
      var row := scopes[uid];
      if row.version != expected {
        return VersionConflict;
      }
      if status.Some? {
        row := row.(active := status.value);
      }
      scopes := scopes[uid := row.(version := row.version + 1)];
      RaisePolicyVersion(server);
      RevokeNothing(tokens, at);
      if !row.active {
        tokens := Revoke(tokens, WithScope(server, row.name), at);
      }
      o := Done;
    }

    method DeleteResourceServerScope(uid: Uid, tenant: Uid, server: Uid, expected: nat, at: Instant)
        returns (o: Outcome)
      modifies this`scopes, this`servers, this`tokens
      ensures Managed(old(Tables()), old(tokens), DeleteScope(uid, tenant, server, expected), at, o, Tables(), tokens)
    {
      if uid !in scopes || scopes[uid].server != server || scopes[uid].deleted
         || server !in servers || servers[server].tenant != tenant || servers[server].deleted {
        return NotFound;
      }
      var row := scopes[uid];
      if row.version != expected {
        return VersionConflict;
      }
      scopes := scopes[uid := row.(active := false, deleted := true, version := row.version + 1)];
      RaisePolicyVersion(server);
      tokens := Revoke(tokens, WithScope(server, row.name), at);
      o := Done;
    }

    /** The loop that inserts a grant's assignments. */
    method Assign(grant: Uid, values: seq<Uid>)
      requires grant in grants
      modifies this`grants
      ensures grants == old(grants)[grant := old(grants)[grant].(scopes := old(grants)[grant].scopes + SetOf(values))]
    {
      assert grants[grant].scopes + SetOf(values[..0]) == grants[grant].scopes;
      for n := 0 to |values|
        invariant grant in grants && grants == old(grants)[grant := grants[grant]]
        invariant grants[grant] == old(grants)[grant].(scopes := old(grants)[grant].scopes + SetOf(values[..n]))
      {
        var row := grants[grant];
        assert SetOf(values[..n + 1]) == SetOf(values[..n]) + {values[n]};
        assert row.scopes + {values[n]} == old(grants)[grant].scopes + SetOf(values[..n + 1]);
        grants := grants[grant := row.(scopes := row.scopes + {values[n]})];
      }
      assert values[..|values|] == values;
    }

    method CreateApplicationGrant(uid: Uid, tenant: Uid, app: Uid, server: Uid, values: seq<Uid>, at: Instant)
        returns (o: Outcome)
      modifies this`grants, this`servers
      ensures UidsOk(values) ==>
                Managed(old(Tables()), tokens, CreateGrant(uid, tenant, app, server, SetOf(values)), at, o,
                    Tables(), tokens)
      ensures !UidsOk(values) ==> o == Refused && Tables() == old(Tables())
    {
      hide Revoke, ValidGrantResources, SetOf, UidsOk, Hits;
      var normal := NormalizeScopeUids(values);
      if !normal {
        return Refused;
      }
      var valid := ValidateGrantResources(Tables(), tenant, app, server, values);
      if !valid {
        return Refused;
      }
      if exists g | g in grants :: !grants[g].deleted && grants[g].app == app && grants[g].server == server {
        return Refused;
      }
      grants := grants[uid := Grant(tenant, app, server, true, false, 1, {})];
      Assign(uid, values);
      assert {} + SetOf(values) == SetOf(values);
      RaisePolicyVersion(server);
      RevokeNothing(tokens, at);
      o := Done;
    }

    /** Replaces the grant's assignments by the listed ones. */
    method Reassign(grant: Uid, values: seq<Uid>)
      requires grant in grants
      modifies this`grants
      ensures grants == old(grants)[grant := old(grants)[grant].(scopes := SetOf(values))]
    {
      grants := grants[grant := grants[grant].(scopes := {})];
      Assign(grant, values);
      assert {} + SetOf(values) == SetOf(values);
    }

    method UpdateApplicationGrant(uid: Uid, tenant: Uid, app: Uid, expected: nat, status: Option<bool>,
                                  values: Option<seq<Uid>>, at: Instant)
      returns (o: Outcome)
      modifies this`grants, this`servers, this`tokens
      ensures values.Some? && !UidsOk(values.value) ==>
                o == Refused && Tables() == old(Tables()) && tokens == old(tokens)
      ensures (values.Some? ==> UidsOk(values.value)) ==>
                Managed(old(Tables()), old(tokens),
                    UpdateGrant(uid, tenant, app, expected, status, Sets(values)), at, o,
                        Tables(), tokens)
    {
      hide Revoke, ValidGrantResources, SetOf, UidsOk, Hits;
      if values.Some? {
        var normal := NormalizeScopeUids(values.value);
        if !normal {
          return Refused;
        }
      }
      if uid !in grants || grants[uid].app != app || grants[uid].tenant != tenant || grants[uid].deleted {
        return NotFound;
      }
      var row := grants[uid];
      if row.version != expected {
        return VersionConflict;
      }
      if values.Some? {
        var valid := ValidateGrantResources(Tables(), tenant, app, row.server, values.value);
        if !valid {
          return Refused;
        }
        Reassign(uid, values.value);
      }
      var active := if status.Some? then status.value else row.active;
      grants := grants[uid := grants[uid].(active := active, version := row.version + 1)];
      RaisePolicyVersion(row.server);
      tokens := Revoke(tokens, OfGrant(app, row.server), at);
      o := Done;
    }

    method DeleteApplicationGrant(uid: Uid, tenant: Uid, app: Uid, expected: nat, at: Instant) returns (o: Outcome)
      modifies this`grants, this`servers, this`tokens
      ensures Managed(old(Tables()), old(tokens), DeleteGrant(uid, tenant, app, expected), at, o, Tables(), tokens)
    {
      if uid !in grants || grants[uid].app != app || grants[uid].tenant != tenant || grants[uid].deleted {
        return NotFound;
      }
      var row := grants[uid];
      if row.version != expected {
        return VersionConflict;
      }
      grants := grants[uid := row.(active := false, deleted := true, version := row.version + 1)];
      RaisePolicyVersion(row.server);
      tokens := Revoke(tokens, OfGrant(app, row.server), at);
      o := Done;
    }

    /** The check that decision and exchange repeat before they act. */
    method CheckStillGranted(terms: Terms) returns (ok: bool)
      requires UniqueIdentifiers(Tables())
      ensures ok <==> StillGranted(Tables(), terms)
    {
      if terms.server.None? {
        return true;
      }
      var server := terms.server.value;
      if server !in servers || servers[server].tenant != terms.tenant || !servers[server].active
          || servers[server].deleted {
        return false;
      }
      var resolved := ResolveAuthorizationScopes(Tables(), terms.tenant, terms.app, Join(terms.scopes),
          Some(servers[server].identifier));
      ok := resolved.Ok?;
    }

    /** The part of oauthAuthorize that resolves the scopes and stores the request. */
    method AuthorizeRequest(request: Uid, app: Uid, raw: string, identifier: Option<string>, redirectUri: string,
                            challenge: string, expiresAt: Instant, at: Instant)
      returns (o: Outcome, ghost server: Option<Uid>)
      requires UniqueIdentifiers(Tables())
      modifies this`requests
      ensures var e := Authorize(request, app, raw, identifier, server, redirectUri, challenge, expiresAt, at);
              requests == AuthorizeDb(old(Rows()), e).requests && (o == Done <==> CanAuthorize(old(Rows()), e))
      ensures o != Done ==>
                forall s :: !CanAuthorize(old(Rows()),
                    Authorize(request, app, raw, identifier, s, redirectUri, challenge, expiresAt, at))
    {
      server := None;
      if !AppLive(Tables(), app) {
        return NotFound, None;
      }
      var resolved := ResolveAuthorizationScopes(Tables(), apps[app].tenant, app, raw, identifier);
      if resolved.Err? {
        return Refused, None;
      }
      server := resolved.value.1;
      var ask := Ask(Terms(app, apps[app].tenant, resolved.value.0, resolved.value.1), redirectUri, challenge);
      requests := requests[request := AuthRequest(ask, Pending, expiresAt)];
      o := Done;
    }

    /** decideOAuthAuthorizationRequest. */
    method DecideRequest(request: Uid, member: Uid, tenant: Uid, approve: bool, code: Uid, expiresAt: Instant,
        at: Instant)
      returns (o: Outcome)
      requires UniqueIdentifiers(Tables())
      modifies this`requests, this`codes
      ensures var e := Decide(request, member, tenant, approve, code, expiresAt, at);
              && requests == DecideDb(old(Rows()), e).requests && codes == DecideDb(old(Rows()), e).codes
              && (o == Done <==> CanDecide(old(Rows()), e) && (approve ==> Approves(old(Rows()), e)))
    {
      if request !in requests || member !in members || members[member].tenant != tenant {
        return NotFound;
      }
      var q := requests[request];
      if q.ask.terms.tenant != tenant || !AppLive(Tables(), q.ask.terms.app) || q.status != Pending
          || q.expiresAt <= at {
        return NotFound;
      }
      if !approve {
        requests := requests[request := q.(status := Denied)];
        return Done;
      }
      var granted := CheckStillGranted(q.ask.terms);
      if !granted {
        return Refused;
      }
      requests := requests[request := q.(status := Approved)];
      codes := codes[code := Code(CodeIssue(request, member, q.ask), expiresAt, None)];
      o := Done;
    }

    /** oauthToken. */
    method ExchangeCode(code: Uid, client: Uid, redirectUri: string, challenge: string, token: Uid, expiresAt: Instant,
        at: Instant)
      returns (o: Outcome)
      requires UniqueIdentifiers(Tables())
      modifies this`codes, this`tokens
      ensures var e := Exchange(code, client, redirectUri, challenge, token, expiresAt, at);
              && codes == ExchangeDb(old(Rows()), e).codes && tokens == ExchangeDb(old(Rows()), e).tokens
              && (o == Done <==> CanExchange(old(Rows()), e))
    {
      if code !in codes {
        return Refused;
      }
      var c := codes[code];
      var terms := c.issue.ask.terms;
      if !AppLive(Tables(), terms.app) || c.issue.member !in members || terms.app != client
          || terms.tenant != apps[client].tenant
         || c.issue.ask.redirectUri != redirectUri || c.consumedAt.Some? || c.expiresAt <= at
         || !members[c.issue.member].active || c.issue.ask.challenge != challenge {
        return Refused;
      }
      var granted := CheckStillGranted(terms);
      if !granted {
        return Refused;
      }
      codes := codes[code := c.(consumedAt := Some(at))];
      tokens := tokens[token := Token(TokenIssue(code, c.issue.member, terms), expiresAt, None)];
      o := Done;
    }
  }
}
