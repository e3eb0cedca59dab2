/** Exactly which steps revoke a token, told from the token and from how the tables change. */
module Revocations {
  import opened Common
  import opened Policies
  import opened Authorization
  import opened AuthorizationProofs
  import opened AuthorizationRuns
  import opened PolicyRuns

  /** The row's own version rose, so the step edited this row. */
  predicate RowEdited(p: Policy, q: Policy, kind: Kind, u: Uid) {
    MetaOf(p, kind, u).Some? && MetaOf(q, kind, u).Some? && MetaOf(p, kind, u) != MetaOf(q, kind, u)
  }

  predicate Inactive(p: Policy, kind: Kind, u: Uid) {
    MetaOf(p, kind, u).Some? && !MetaOf(p, kind, u).value.active
  }

  /**
   The tables changed under the token: its application or server was edited and is inactive now, or so was a scope of
   its server that it has, or a grant of its application on its server was edited in any way.
   */
  ghost predicate UnderCut(p: Policy, q: Policy, terms: Terms) {
    || (RowEdited(p, q, AppRows, terms.app) && Inactive(q, AppRows, terms.app))
    || (terms.server.Some? && RowEdited(p, q, ServerRows, terms.server.value)
        && Inactive(q, ServerRows, terms.server.value))
    || (terms.server.Some?
        && exists u :: ScopeCut(p, q, terms, u))
    || (terms.server.Some?
        && exists g :: GrantEdited(p, q, terms, g))
  }

  predicate ScopeCut(p: Policy, q: Policy, terms: Terms, u: Uid) {
    && RowEdited(p, q, ScopeRows, u) && Inactive(q, ScopeRows, u)
    && Some(p.scopes[u].server) == terms.server && p.scopes[u].name in terms.scopes
  }

  predicate GrantEdited(p: Policy, q: Policy, terms: Terms, g: Uid) {
    && RowEdited(p, q, GrantRows, g)
    && p.grants[g].app == terms.app && Some(p.grants[g].server) == terms.server
  }

  lemma EditedIffNamed(p: Policy, c: Change, kind: Kind, u: Uid)
    requires PolicyOk(p) && Accepted(p, c) && FreshFor(p, c) && MetaOf(p, kind, u).Some?
    ensures RowEdited(p, Changed(p, c), kind, u)
            <==> EditOf(c).Some? && EditOf(c).value.kind == kind && EditOf(c).value.uid == u
    ensures RowEdited(p, Changed(p, c), kind, u) ==>
              MetaOf(Changed(p, c), kind, u) == Some(Edited(EditOf(c).value, MetaOf(p, kind, u).value))
  {
    hide PolicyOk, Accepted, FreshFor, MetaOf, EditOf;
    ChangeEdits(p, c, kind, u);
  }

  /** The row an accepted edit names is there. */
  lemma NamedRowExists(p: Policy, c: Change)
    requires PolicyOk(p) && Accepted(p, c) && EditOf(c).Some?
    ensures MetaOf(p, EditOf(c).value.kind, c.uid).Some? && EditOf(c).value.uid == c.uid
  {
    hide ValidGrantResources, NewScopeName, UniqueIdentifiers, UniqueScopeNames, UniqueGrants, GrantOk;
  }

  /** What the handler's own filter says, in terms of the row it edits. */
  lemma HitsByEdit(p: Policy, c: Change, uid: Uid, t: Token)
    requires PolicyOk(p) && Accepted(p, c)
    ensures var terms := t.issue.terms;
            Hits(Revokes(p, c), uid, t) <==>
              && EditOf(c).Some? && MetaOf(p, EditOf(c).value.kind, c.uid).Some?
              && var edit := EditOf(c).value;
                 var dead := !Edited(edit, MetaOf(p, edit.kind, c.uid).value).active;
                 match edit.kind
                 case AppRows => dead && terms.app == c.uid
                 case ServerRows => dead && terms.server == Some(c.uid)
                 case ScopeRows =>
                   dead && Some(p.scopes[c.uid].server) == terms.server && p.scopes[c.uid].name in terms.scopes
                 case GrantRows => p.grants[c.uid].app == terms.app && Some(p.grants[c.uid].server) == terms.server
  {
    hide ValidGrantResources, NewScopeName, UniqueIdentifiers, UniqueScopeNames, UniqueGrants, GrantOk;
  }

  lemma HitsIffUnderCut(p: Policy, c: Change, uid: Uid, t: Token)
    requires PolicyOk(p) && Accepted(p, c) && FreshFor(p, c)
    ensures Hits(Revokes(p, c), uid, t) <==> UnderCut(p, Changed(p, c), t.issue.terms)
  {
    hide PolicyOk, Accepted, FreshFor, MetaOf, EditOf, Hits, Revokes, Changed;
    var q, terms := Changed(p, c), t.issue.terms;
    HitsByEdit(p, c, uid, t);
    forall kind: Kind, u: Uid | MetaOf(p, kind, u).Some?
      ensures RowEdited(p, q, kind, u) <==> EditOf(c).Some? && EditOf(c).value.kind == kind && EditOf(c).value.uid == u
      ensures RowEdited(p, q, kind, u) ==> MetaOf(q, kind, u) == Some(Edited(EditOf(c).value, MetaOf(p, kind, u).value))
    {
      EditedIffNamed(p, c, kind, u);
    }
    if EditOf(c).Some? {
      NamedRowExists(p, c);
      assert RowEdited(p, q, EditOf(c).value.kind, c.uid);
      assert ScopeCut(p, q, terms, c.uid) || !ScopeCut(p, q, terms, c.uid);
      assert GrantEdited(p, q, terms, c.uid) || !GrantEdited(p, q, terms, c.uid);
    }
  }

  /**
   All that can revoke a token: its client, its member's consent, its member's recovery, and a change that cuts it.
   */
  ghost predicate Cause(db: Db, e: Event, q: Policy, uid: Uid, t: Token) {
    match e
    case Manage(_, _) => UnderCut(db.policy, q, t.issue.terms)
    case RevokeToken(client, token, _) => client == t.issue.terms.app && token == uid
    case RevokeConsent(app, member, server, _) =>
      app == t.issue.terms.app && member == t.issue.member && server == t.issue.terms.server
    case Recover(member, _) => member == t.issue.member
    case _ => false
  }

  /** The token is as it was, or revoked at this instant, according to whether there is a cause. */
  predicate RevokedIf(cause: bool, before: Token, after: Token, at: Instant) {
    after == if cause && before.revokedAt.None? then before.(revokedAt := Some(at)) else before
  }

  lemma ManageRevokes(db: Db, c: Change, at: Instant, uid: Uid)
    requires PolicyOk(db.policy) && PolicyUids(db.policy, db.used) && (Creates(c) ==> c.uid !in db.used)
    requires uid in db.tokens
    ensures var db', t := ManageDb(db, c, at), db.tokens[uid];
            uid in db'.tokens && RevokedIf(UnderCut(db.policy, db'.policy, t.issue.terms), t, db'.tokens[uid], at)
  {
    hide PolicyOk, Accepted, Changed, Revokes, FreshFor, UnderCut, PolicyUids, Hits;
    if Accepted(db.policy, c) {
      FreshUid(db.policy, db.used, c);
      HitsIffUnderCut(db.policy, c, uid, db.tokens[uid]);
    } else {
      NothingIsCut(db.policy, db.tokens[uid].issue.terms);
    }
  }

  lemma ExchangeRevokesNothing(db: Db, e: Event, uid: Uid)
    requires e.Exchange? && e.token !in db.used && uid in db.used && uid in db.tokens
    ensures uid in ExchangeDb(db, e).tokens && ExchangeDb(db, e).tokens[uid] == db.tokens[uid]
  {
    hide StillGranted;
  }

  lemma OtherStepRevokes(db: Db, e: Event, uid: Uid)
    requires !e.Manage? && !e.Exchange? && uid in db.tokens && uid in Apply(db, e).tokens
    ensures var db', t := Apply(db, e), db.tokens[uid];
            RevokedIf(Cause(db, e, db'.policy, uid, t), t, db'.tokens[uid], e.at)
  {
    hide UnderCut, ManageDb, AuthorizeDb, DecideDb, ExchangeDb, ConsumeCodesOf;
  }

  lemma StepRevokes(db: Db, e: Event, uid: Uid)
    requires Inv(db) && Enabled(db, e) && uid in db.tokens && uid in Apply(db, e).tokens
    ensures var db', t := Apply(db, e), db.tokens[uid];
            RevokedIf(Cause(db, e, db'.policy, uid, t), t, db'.tokens[uid], e.at)
  {
    hide PolicyOk, TokensCovered, ChainOk, UnderCut, PolicyUids, ManageDb, AuthorizeDb, DecideDb, ExchangeDb, Revoke,
         ConsumeCodesOf;
    match e
    case Manage(c, at) => ManageRevokes(db, c, at, uid);
    case Exchange(_, _, _, _, _, _, _) =>
      TokenUsed(db, uid);
      ExchangeRevokesNothing(db, e, uid);
    case _ => OtherStepRevokes(db, e, uid);
  }

  lemma NothingIsCut(p: Policy, terms: Terms)
    ensures !UnderCut(p, p, terms)
  {
  }

  /**
   A token is revoked in a step exactly when the step is a cause, with the instant of the step, and never otherwise.
   */
  lemma RevokedExactlyByCause(dbs: seq<Db>, es: seq<Event>, k: nat, uid: Uid)
    requires IsRun(dbs, es) && k < |es| && uid in dbs[k].tokens && uid in dbs[k + 1].tokens
    requires dbs[k].tokens[uid].revokedAt.None?
    ensures dbs[k + 1].tokens[uid].revokedAt
            == if Cause(dbs[k], es[k], dbs[k + 1].policy, uid, dbs[k].tokens[uid]) then Some(es[k].at) else None
  {
    hide Apply, Enabled, Cause, Inv;
    assert Next(dbs[k], es[k], dbs[k + 1]);
    ReachableInv(dbs, es, k);
    StepRevokes(dbs[k], es[k], uid);
  }
}
