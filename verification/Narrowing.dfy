/** Exactly which management changes take away something that a token rests on. */
module Narrowing {
  import opened Common
  import opened Scopes
  import opened Policies
  import opened Authorization
  import opened AuthorizationProofs

  /** The new assignments of a grant leave out one of the delegated scopes. */
  predicate LeavesOut(p: Policy, terms: Terms, scopes: set<Uid>) {
    exists name | name in terms.scopes ::
      !IsOidc(name) && forall u | u in scopes :: !(u in p.scopes && p.scopes[u].name == name)
  }

  /** The change takes away something that covered terms rest on. */
  predicate Narrows(p: Policy, c: Change, terms: Terms)
    requires Accepted(p, c)
  {
    match c
    case UpdateApp(uid, _, _, status) => uid == terms.app && !Or(status, p.apps[uid].active)
    case DeleteApp(uid, _, _) => uid == terms.app
    case UpdateServer(uid, _, _, status) => terms.server == Some(uid) && !Or(status, p.servers[uid].active)
    case DeleteServer(uid, _, _) => terms.server == Some(uid)
    case UpdateScope(uid, _, server, _, status) =>
      terms.server == Some(server) && p.scopes[uid].name in terms.scopes && !Or(status, p.scopes[uid].active)
    case DeleteScope(uid, _, server, _) => terms.server == Some(server) && p.scopes[uid].name in terms.scopes
    case UpdateGrant(uid, _, app, _, status, scopes) =>
      && app == terms.app && terms.server == Some(p.grants[uid].server)
      && (!Or(status, p.grants[uid].active) || (scopes.Some? && LeavesOut(p, terms, scopes.value)))
    case DeleteGrant(uid, _, app, _) => app == terms.app && terms.server == Some(p.grants[uid].server)
    case _ => false
  }

  lemma NewAssignmentCovers(p: Policy, c: Change, terms: Terms, g: Uid, name: string)
    requires Accepted(p, c) && FreshFor(p, c) && !Narrows(p, c, terms) && c.UpdateGrant? && c.uid == g
             && c.newScopes.Some?
    requires terms.server.Some? && GrantLive(p, g, terms.app, terms.server.value)
    requires name in terms.scopes && !IsOidc(name)
    ensures exists u :: AssignedBy(Changed(p, c), g, terms.server.value, name, u)
  {
    var u: Uid :| u in c.newScopes.value && u in p.scopes && p.scopes[u].name == name;
    assert AssignedBy(Changed(p, c), g, terms.server.value, name, u);
  }

  lemma OldAssignmentCovers(p: Policy, c: Change, terms: Terms, g: Uid, name: string)
    requires Accepted(p, c) && FreshFor(p, c) && !Narrows(p, c, terms)
             && !(c.UpdateGrant? && c.uid == g && c.newScopes.Some?)
    requires terms.server.Some? && GrantLive(p, g, terms.app, terms.server.value)
    requires name in terms.scopes && exists u :: AssignedBy(p, g, terms.server.value, name, u)
    ensures exists u :: AssignedBy(Changed(p, c), g, terms.server.value, name, u)
  {
    var u: Uid :| AssignedBy(p, g, terms.server.value, name, u);
    assert AssignedBy(Changed(p, c), g, terms.server.value, name, u);
  }

  lemma EndsStayLive(p: Policy, c: Change, terms: Terms, g: Uid)
    requires Accepted(p, c) && FreshFor(p, c) && !Narrows(p, c, terms) && terms.server.Some?
    requires AppLive(p, terms.app) && ServerLive(p, terms.server.value)
             && GrantLive(p, g, terms.app, terms.server.value)
    ensures var q := Changed(p, c);
            AppLive(q, terms.app) && ServerLive(q, terms.server.value) && GrantLive(q, g, terms.app, terms.server.value)
  {
    hide LeavesOut, ValidGrantResources;
  }

  lemma UnnarrowedStaysCovered(p: Policy, c: Change, terms: Terms)
    requires Accepted(p, c) && FreshFor(p, c) && !Narrows(p, c, terms) && Covered(p, terms)
    ensures Covered(Changed(p, c), terms)
  {
    hide Accepted, Changed, FreshFor, Narrows, IsOidc;
    if terms.server.Some? {
      var g: Uid :| CoveredBy(p, terms, g);
      EndsStayLive(p, c, terms, g);
      forall name | name in terms.scopes && !IsOidc(name)
        ensures exists u :: AssignedBy(Changed(p, c), g, terms.server.value, name, u)
      {
        if c.UpdateGrant? && c.uid == g && c.newScopes.Some? {
          NewAssignmentCovers(p, c, terms, g, name);
        } else {
          OldAssignmentCovers(p, c, terms, g, name);
        }
      }
      assert CoveredBy(Changed(p, c), terms, g);
    }
  }

  /** A narrowing change to grant g leaves no other grant to fall back on. */
  lemma NarrowedIsUncovered(p: Policy, c: Change, terms: Terms)
    requires PolicyOk(p) && Accepted(p, c) && FreshFor(p, c) && Narrows(p, c, terms) && terms.server.Some?
             && Covered(p, terms)
    ensures !Covered(Changed(p, c), terms)
  {
  }

  /** A change uncovers covered terms exactly when it narrows what they rest on. */
  lemma ChangeUncoversIffNarrows(p: Policy, c: Change, terms: Terms)
    requires PolicyOk(p) && Accepted(p, c) && FreshFor(p, c) && terms.server.Some? && Covered(p, terms)
    ensures Covered(Changed(p, c), terms) <==> !Narrows(p, c, terms)
  {
    hide PolicyOk, Accepted, Changed, FreshFor, Narrows, Covered;
    if Narrows(p, c, terms) {
      NarrowedIsUncovered(p, c, terms);
    } else {
      UnnarrowedStaysCovered(p, c, terms);
    }
  }

  /**
   Not every change that revokes tokens narrows: setting a live grant to active again revokes and uncovers nothing.
   */
  lemma ReaffirmedGrantStillCovers(p: Policy, g: Uid, uid: Uid, t: Token)
    requires t.issue.terms.server.Some? && GrantLive(p, g, t.issue.terms.app, t.issue.terms.server.value)
    requires Covered(p, t.issue.terms)
    ensures var c := UpdateGrant(g, p.grants[g].tenant, p.grants[g].app, p.grants[g].version, Some(true), None);
            Accepted(p, c) && Hits(Revokes(p, c), uid, t) && Covered(Changed(p, c), t.issue.terms)
  {
    hide Covered;
    var c := UpdateGrant(g, p.grants[g].tenant, p.grants[g].app, p.grants[g].version, Some(true), None);
    assert Accepted(p, c) && !Narrows(p, c, t.issue.terms);
    UnnarrowedStaysCovered(p, c, t.issue.terms);
  }
}
