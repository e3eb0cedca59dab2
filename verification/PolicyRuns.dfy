/**
 What the management handlers do to applications, servers, scopes and grants, in the columns of their rows and the
 fields of the requests, over whole runs.
 */
module PolicyRuns {
  import opened Common
  import opened Policies
  import opened Authorization
  import opened AuthorizationProofs
  import opened AuthorizationRuns

  datatype Kind = AppRows | ServerRows | ScopeRows | GrantRows

  /** The columns all four tables share; a scope belongs to the tenant of its server. */
  datatype Meta = Meta(tenant: Uid, active: bool, deleted: bool, version: nat)

  function MetaOf(p: Policy, kind: Kind, u: Uid): Option<Meta> {
    match kind
    case AppRows =>
      if u in p.apps then Some(Meta(p.apps[u].tenant, p.apps[u].active, p.apps[u].deleted, p.apps[u].version)) else None
    case ServerRows =>
      if u in p.servers then
        Some(Meta(p.servers[u].tenant, p.servers[u].active, p.servers[u].deleted, p.servers[u].version))
      else None
    case ScopeRows =>
      if u in p.scopes && p.scopes[u].server in p.servers then
        Some(Meta(p.servers[p.scopes[u].server].tenant, p.scopes[u].active, p.scopes[u].deleted, p.scopes[u].version))
      else None
    case GrantRows =>
      if u in p.grants then
        Some(Meta(p.grants[u].tenant, p.grants[u].active, p.grants[u].deleted, p.grants[u].version))
      else None
  }

  /** An update or delete request for one row; a delete asks for no status. */
  datatype Edit = Edit(kind: Kind, uid: Uid, tenant: Uid, expected: nat, status: Option<bool>, deletes: bool)

  function EditOf(c: Change): Option<Edit> {
    match c
    case UpdateApp(uid, tenant, expected, status) => Some(Edit(AppRows, uid, tenant, expected, status, false))
    case DeleteApp(uid, tenant, expected) => Some(Edit(AppRows, uid, tenant, expected, None, true))
    case UpdateServer(uid, tenant, expected, status) => Some(Edit(ServerRows, uid, tenant, expected, status, false))
    case DeleteServer(uid, tenant, expected) => Some(Edit(ServerRows, uid, tenant, expected, None, true))
    case UpdateScope(uid, tenant, server, expected, status) =>
      Some(Edit(ScopeRows, uid, tenant, expected, status, false))
    case DeleteScope(uid, tenant, server, expected) => Some(Edit(ScopeRows, uid, tenant, expected, None, true))
    case UpdateGrant(uid, tenant, app, expected, status, scopes) =>
      Some(Edit(GrantRows, uid, tenant, expected, status, false))
    case DeleteGrant(uid, tenant, app, expected) => Some(Edit(GrantRows, uid, tenant, expected, None, true))
    case _ => None
  }

  /** The edit names the row as it is: its tenant, its current version, and not deleted. */
  predicate Matches(edit: Edit, kind: Kind, u: Uid, row: Meta) {
    edit.kind == kind && edit.uid == u && edit.tenant == row.tenant && edit.expected == row.version && !row.deleted
  }

  function Edited(edit: Edit, row: Meta): Meta {
    Meta(row.tenant, if edit.deletes then false else if edit.status.Some? then edit.status.value else row.active,
         edit.deletes, row.version + 1)
  }

  /** The change edits the row as requested if it names it, and else leaves the row's columns alone. */
  predicate EditsAsAsked(p: Policy, c: Change, kind: Kind, u: Uid)
    requires Accepted(p, c) && MetaOf(p, kind, u).Some?
  {
    var row, edit := MetaOf(p, kind, u).value, EditOf(c);
    if edit.Some? && edit.value.kind == kind && edit.value.uid == u
    then Matches(edit.value, kind, u, row) && MetaOf(Changed(p, c), kind, u) == Some(Edited(edit.value, row))
    else MetaOf(Changed(p, c), kind, u) == MetaOf(p, kind, u)
  }

  lemma ChangeEditsAppRows(p: Policy, c: Change, u: Uid)
    requires PolicyOk(p) && Accepted(p, c) && FreshFor(p, c) && MetaOf(p, AppRows, u).Some?
    ensures EditsAsAsked(p, c, AppRows, u)
  {
    hide ValidGrantResources, NewScopeName, UniqueIdentifiers, UniqueScopeNames, UniqueGrants, GrantOk, ScopeOk;
  }

  lemma ChangeEditsServerRows(p: Policy, c: Change, u: Uid)
    requires PolicyOk(p) && Accepted(p, c) && FreshFor(p, c) && MetaOf(p, ServerRows, u).Some?
    ensures EditsAsAsked(p, c, ServerRows, u)
  {
    hide ValidGrantResources, NewScopeName, UniqueIdentifiers, UniqueScopeNames, UniqueGrants, GrantOk, ScopeOk;
  }

  lemma ChangeEditsScopeRows(p: Policy, c: Change, u: Uid)
    requires PolicyOk(p) && Accepted(p, c) && FreshFor(p, c) && MetaOf(p, ScopeRows, u).Some?
    ensures EditsAsAsked(p, c, ScopeRows, u)
  {
    hide ValidGrantResources, NewScopeName, UniqueIdentifiers, UniqueScopeNames, UniqueGrants, GrantOk;
    assert ScopeOk(p, u);
  }

  lemma ChangeEditsGrantRows(p: Policy, c: Change, u: Uid)
    requires PolicyOk(p) && Accepted(p, c) && FreshFor(p, c) && MetaOf(p, GrantRows, u).Some?
    ensures EditsAsAsked(p, c, GrantRows, u)
  {
    hide ValidGrantResources, NewScopeName, UniqueIdentifiers, UniqueScopeNames, UniqueGrants, GrantOk, ScopeOk;
  }

  /** Every accepted change edits the row it names as requested and leaves every other row's columns alone. */
  lemma ChangeEdits(p: Policy, c: Change, kind: Kind, u: Uid)
    requires PolicyOk(p) && Accepted(p, c) && FreshFor(p, c) && MetaOf(p, kind, u).Some?
    ensures EditsAsAsked(p, c, kind, u)
  {
    hide EditsAsAsked, MetaOf, Accepted, PolicyOk, FreshFor;
    match kind
    case AppRows => ChangeEditsAppRows(p, c, u);
    case ServerRows => ChangeEditsServerRows(p, c, u);
    case ScopeRows => ChangeEditsScopeRows(p, c, u);
    case GrantRows => ChangeEditsGrantRows(p, c, u);
  }

  /**
   The handler of an update or delete, other than one that replaces a grant's scopes, refuses no request that
   matches.
   */
  lemma MatchingEditIsAccepted(p: Policy, c: Change)
    requires PolicyOk(p) && EditOf(c).Some?
    requires MetaOf(p, EditOf(c).value.kind, c.uid).Some?
    requires Matches(EditOf(c).value, EditOf(c).value.kind, c.uid, MetaOf(p, EditOf(c).value.kind, c.uid).value)
    requires c.UpdateScope? || c.DeleteScope? ==>
               p.scopes[c.uid].server == c.server && !p.servers[c.server].deleted
    requires c.UpdateGrant? || c.DeleteGrant? ==> p.grants[c.uid].app == c.app
    requires c.UpdateGrant? ==> c.newScopes.None?
    ensures Accepted(p, c)
  {
  }

  lemma ManagedMeta(db: Db, e: Event, db': Db, kind: Kind, u: Uid)
    requires Inv(db) && Next(db, e, db') && MetaOf(db.policy, kind, u).Some?
    ensures MetaOf(db'.policy, kind, u) != MetaOf(db.policy, kind, u) ==>
              && e.Manage? && EditOf(e.change).Some?
              && var row, edit := MetaOf(db.policy, kind, u).value, EditOf(e.change).value;
                 Matches(edit, kind, u, row) && MetaOf(db'.policy, kind, u) == Some(Edited(edit, row))
    ensures MetaOf(db'.policy, kind, u).Some?
  {
    hide PolicyOk, TokensCovered, ChainOk, Accepted, Changed, Revokes, Revoke, FreshFor, MetaOf, AuthorizeDb,
         DecideDb, ExchangeDb;
    if e.Manage? && Accepted(db.policy, e.change) {
      FreshUid(db.policy, db.used, e.change);
      ChangeEdits(db.policy, e.change, kind, u);
    }
  }

  /** Step k changes the columns of this row. */
  predicate EditsRow(dbs: seq<Db>, k: nat, kind: Kind, u: Uid)
    requires k + 1 < |dbs|
  {
    && MetaOf(dbs[k].policy, kind, u).Some? && MetaOf(dbs[k + 1].policy, kind, u).Some?
    && MetaOf(dbs[k].policy, kind, u) != MetaOf(dbs[k + 1].policy, kind, u)
  }

  /**
   A row changes only by a request of its own tenant that names its current version, and then exactly as requested, with
   the next version; a deleted row never changes again.
   */
  lemma RowsChangeAsRequested(dbs: seq<Db>, es: seq<Event>, k: nat, kind: Kind, u: Uid)
    requires IsRun(dbs, es) && k < |es| && EditsRow(dbs, k, kind, u)
    ensures es[k].Manage? && EditOf(es[k].change).Some?
    ensures var row, after := MetaOf(dbs[k].policy, kind, u).value, MetaOf(dbs[k + 1].policy, kind, u).value;
            var edit := EditOf(es[k].change).value;
            && edit.kind == kind && edit.uid == u && edit.tenant == row.tenant == after.tenant
            && edit.expected == row.version && after.version == row.version + 1 && !row.deleted
            && after.deleted == edit.deletes
            && after.active
               == if edit.deletes then false else if edit.status.Some? then edit.status.value else row.active
  {
    hide Next, MetaOf;
    ReachableInv(dbs, es, k);
    ManagedMeta(dbs[k], es[k], dbs[k + 1], kind, u);
  }

  lemma {:induction false} RowVersionsRise(dbs: seq<Db>, es: seq<Event>, i: nat, j: nat, kind: Kind, u: Uid)
    requires IsRun(dbs, es) && i <= j < |dbs| && MetaOf(dbs[i].policy, kind, u).Some?
    ensures MetaOf(dbs[j].policy, kind, u).Some?
    ensures MetaOf(dbs[i].policy, kind, u).value.version <= MetaOf(dbs[j].policy, kind, u).value.version
    ensures MetaOf(dbs[i].policy, kind, u).value.deleted ==>
              MetaOf(dbs[j].policy, kind, u) == MetaOf(dbs[i].policy, kind, u)
    decreases j
  {
    hide Next, MetaOf, Inv;
    if i < j {
      RowVersionsRise(dbs, es, i, j - 1, kind, u);
      ReachableInv(dbs, es, j - 1);
      ManagedMeta(dbs[j - 1], es[j - 1], dbs[j], kind, u);
    }
  }

  /** No lost update: of two requests that change one row the later one named a later version. */
  lemma NoLostEdit(dbs: seq<Db>, es: seq<Event>, i: nat, j: nat, kind: Kind, u: Uid)
    requires IsRun(dbs, es) && i < j < |es| && EditsRow(dbs, i, kind, u) && EditsRow(dbs, j, kind, u)
    ensures es[i].Manage? && es[j].Manage? && EditOf(es[i].change).Some? && EditOf(es[j].change).Some?
    ensures EditOf(es[i].change).value.expected < EditOf(es[j].change).value.expected
  {
    hide Next, MetaOf;
    RowsChangeAsRequested(dbs, es, i, kind, u);
    RowsChangeAsRequested(dbs, es, j, kind, u);
    RowVersionsRise(dbs, es, i + 1, j, kind, u);
  }

  // ----- creation, and the scopes of a grant -----

  /** Every uid and scope of an assignment was usable for the grant when it was written. */
  predicate Usable(p: Policy, tenant: Uid, app: Uid, server: Uid, scopes: set<Uid>) {
    && 1 <= |scopes| <= 100
    && app in p.apps && p.apps[app].tenant == tenant && p.apps[app].active && !p.apps[app].deleted
    && server in p.servers && p.servers[server].tenant == tenant && p.servers[server].active
        && !p.servers[server].deleted
    && forall u | u in scopes ::
         u in p.scopes && p.scopes[u].server == server && p.scopes[u].active && !p.scopes[u].deleted
  }

  /** The scopes of grant g were written by this change, and all of them were usable for it then. */
  predicate ScopesAsRequested(p: Policy, c: Change, q: Policy, g: Uid)
    requires g in q.grants
  {
    var after := q.grants[g];
    && c.uid == g && Usable(p, after.tenant, after.app, after.server, after.scopes)
    && (g in p.grants ==> c.UpdateGrant? && c.newScopes == Some(after.scopes))
    && (g !in p.grants ==>
          && c == CreateGrant(g, after.tenant, after.app, after.server, after.scopes)
          && after.active && !after.deleted && after.version == 1)
  }

  lemma ChangeWritesScopes(p: Policy, c: Change, g: Uid)
    requires Accepted(p, c) && FreshFor(p, c) && g in Changed(p, c).grants
    requires g in p.grants ==> p.grants[g].scopes != Changed(p, c).grants[g].scopes
    ensures ScopesAsRequested(p, c, Changed(p, c), g)
  {
    hide ScopeRow, ServerRow, AppRow;
  }

  /** The scopes of a grant are written only as requested, and only if all of them are usable at that moment. */
  lemma ScopesChangeAsRequested(dbs: seq<Db>, es: seq<Event>, k: nat, g: Uid)
    requires IsRun(dbs, es) && k < |es| && g in dbs[k + 1].policy.grants
    requires g in dbs[k].policy.grants ==> dbs[k].policy.grants[g].scopes != dbs[k + 1].policy.grants[g].scopes
    ensures es[k].Manage? && ScopesAsRequested(dbs[k].policy, es[k].change, dbs[k + 1].policy, g)
  {
    hide Accepted, Changed, Revokes, Revoke, AuthorizeDb, DecideDb, ExchangeDb, FreshFor, ScopesAsRequested, Inv;
    assert Next(dbs[k], es[k], dbs[k + 1]);
    if es[k].Manage? && Accepted(dbs[k].policy, es[k].change) {
      UidsAreFresh(dbs, es, k);
      ChangeWritesScopes(dbs[k].policy, es[k].change, g);
    }
  }

  lemma UidsAreFresh(dbs: seq<Db>, es: seq<Event>, k: nat)
    requires IsRun(dbs, es) && k < |es| && es[k].Manage?
    ensures FreshFor(dbs[k].policy, es[k].change)
  {
    hide PolicyOk, TokensCovered, ChainOk, Apply, FreshFor;
    assert Next(dbs[k], es[k], dbs[k + 1]);
    ReachableInv(dbs, es, k);
    FreshUid(dbs[k].policy, dbs[k].used, es[k].change);
  }

  // ----- what a row is for never changes -----

  predicate SamePurpose(p: Policy, q: Policy, u: Uid) {
    && (u in p.apps ==> u in q.apps && q.apps[u].tenant == p.apps[u].tenant)
    && (u in p.servers ==>
          u in q.servers && q.servers[u].identifier == p.servers[u].identifier
              && q.servers[u].tenant == p.servers[u].tenant)
    && (u in p.scopes ==>
          u in q.scopes && q.scopes[u].server == p.scopes[u].server && q.scopes[u].name == p.scopes[u].name)
    && (u in p.grants ==>
          && u in q.grants && q.grants[u].app == p.grants[u].app && q.grants[u].server == p.grants[u].server
          && q.grants[u].tenant == p.grants[u].tenant)
  }

  /** A row that appears was asked for by this change and starts out active, with version one. */
  predicate CreatedAsRequested(p: Policy, c: Change, q: Policy, u: Uid) {
    && (u in q.apps && u !in p.apps ==> c.CreateApp? && c.uid == u && q.apps[u] == App(c.tenant, true, false, 1))
    && (u in q.servers && u !in p.servers ==>
          c.CreateServer? && c.uid == u && q.servers[u] == Server(c.tenant, c.identifier, true, false, 1, 1))
    && (u in q.scopes && u !in p.scopes ==>
          && c.CreateScope? && c.uid == u && q.scopes[u] == Scope(c.server, c.name, true, false, 1)
          && c.server in p.servers && p.servers[c.server].tenant == c.tenant && p.servers[c.server].active
          && !p.servers[c.server].deleted)
  }

  lemma ChangeKeepsPurpose(p: Policy, c: Change, u: Uid)
    requires Accepted(p, c) && FreshFor(p, c)
    ensures SamePurpose(p, Changed(p, c), u)
  {
    hide ValidGrantResources, NewScopeName;
  }

  lemma ChangeCreates(p: Policy, c: Change, u: Uid)
    requires Accepted(p, c) && FreshFor(p, c)
    ensures CreatedAsRequested(p, c, Changed(p, c), u)
  {
    hide ValidGrantResources, NewScopeName;
  }

  /** Rows never change their tenant, server, name, identifier or application, and appear only as requested. */
  lemma PurposeIsFixed(dbs: seq<Db>, es: seq<Event>, k: nat, u: Uid)
    requires IsRun(dbs, es) && k < |es|
    ensures SamePurpose(dbs[k].policy, dbs[k + 1].policy, u)
    ensures dbs[k + 1].policy != dbs[k].policy ==>
              es[k].Manage? && CreatedAsRequested(dbs[k].policy, es[k].change, dbs[k + 1].policy, u)
  {
    hide Accepted, Changed, Revokes, Revoke, AuthorizeDb, DecideDb, ExchangeDb, FreshFor, CreatedAsRequested, Inv;
    assert Next(dbs[k], es[k], dbs[k + 1]);
    if es[k].Manage? && Accepted(dbs[k].policy, es[k].change) {
      UidsAreFresh(dbs, es, k);
      ChangeKeepsPurpose(dbs[k].policy, es[k].change, u);
      ChangeCreates(dbs[k].policy, es[k].change, u);
    }
  }
}
