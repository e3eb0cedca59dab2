/** One small run: an application, a server with one scope and a grant for it, a member, and an approved request. */
module SampleRun {
  import opened Common
  import opened Strings
  import opened Scopes
  import opened Policies
  import opened Authorization
  import opened Decisions

  lemma Extend(dbs: seq<Db>, es: seq<Event>, e: Event, db': Db)
    requires IsRun(dbs, es) && Next(dbs[|es|], e, db')
    ensures IsRun(dbs + [db'], es + [e])
  {
    hide Next;
    var dbs', es' := dbs + [db'], es + [e];
    forall i | 0 <= i < |es'| ensures Next(dbs'[i], es'[i], dbs'[i + 1]) {
      if i < |es| {
        assert Next(dbs[i], es[i], dbs[i + 1]);
      }
    }
  }

  const NAMES: seq<string> := ["a", OPENID]

  const POLICY: Policy := Policy(
    map[0 := App(9, true, false, 1)],
    map[1 := Server(9, "r", true, false, 1, 3)],
    map[2 := Scope(1, "a", true, false, 1)],
    map[3 := Grant(9, 0, 1, true, false, 1, {2})])

  lemma NamesReadBack()
    ensures Normalize(Join(NAMES)) == Some((NAMES, ["a"]))
  {
    var values := NAMES;
    assert values[0] == "a" && values[1] == OPENID;
    assert Below("a", OPENID);
    assert NormalForm(values);
    StoredScopesReadBackUnchanged(values);
    assert Custom(values[..1]) == ["a"] by {
      assert Custom([]) == [];
    }
    assert Custom(values) == ["a"];
  }

  lemma PolicyGrants()
    ensures Resolves(POLICY, 9, 0, Join(NAMES), Some("r"), Some(1))
    ensures StillGranted(POLICY, Terms(0, 9, NAMES, Some(1)))
  {
    hide Normalize, Join;
    NamesReadBack();
    assert GrantLive(POLICY, 3, 0, 1) && ScopeLive(POLICY, 2);
    assert Granted(POLICY, 0, 1, "a");
    assert Resource(POLICY, 9, 0, "r", 1);
    assert 1 in POLICY.servers;
  }

  const CHANGES: seq<Change> :=
    [CreateApp(0, 9), CreateServer(1, 9, "r"), CreateScope(2, 9, 1, "a"), CreateGrant(3, 9, 0, 1, {2})]

  /** The policy after the first n changes. */
  function PolicyAfter(n: nat): Policy {
    if n == 0 then EMPTY_POLICY
    else if n == 1 then EMPTY_POLICY.(apps := POLICY.apps)
    else if n == 2 then Policy(POLICY.apps, map[1 := Server(9, "r", true, false, 1, 1)], map[], map[])
    else if n == 3 then Policy(POLICY.apps, map[1 := Server(9, "r", true, false, 1, 2)], POLICY.scopes, map[])
    else POLICY
  }

  lemma ChangeLeadsOn(n: nat)
    requires n < 4
    ensures Accepted(PolicyAfter(n), CHANGES[n]) && Changed(PolicyAfter(n), CHANGES[n]) == PolicyAfter(n + 1)
  {
    if n == 3 {
      assert AppLive(PolicyAfter(3), 0) && ServerLive(PolicyAfter(3), 1) && ScopeLive(PolicyAfter(3), 2);
    }
  }

  function Uids(n: nat): set<Uid> {
    if n == 0 then {} else Uids(n - 1) + {n - 1}
  }

  lemma {:induction false} UidsBelow(n: nat, u: Uid)
    ensures u in Uids(n) <==> u < n
  {
    if n > 0 {
      UidsBelow(n - 1, u);
    }
  }

  function SetUpDb(n: nat): Db {
    Db(0, PolicyAfter(n), map[], map[], map[], map[], map[], map[], map[], Uids(n))
  }

  lemma StartsEmpty()
    ensures SetUpDb(0) == Init(0)
  {
  }

  lemma {:induction false} SetUp(n: nat) returns (dbs: seq<Db>, es: seq<Event>)
    requires n <= 4
    ensures IsRun(dbs, es) && dbs[|es|] == SetUpDb(n) && (forall i | 0 <= i < |es| :: !es[i].Exchange?)
  {
    hide Accepted, Changed, PolicyAfter, Revokes;
    if n == 0 {
      dbs, es := [Init(0)], [];
      StartsEmpty();
      return;
    }
    dbs, es := SetUp(n - 1);
    ChangeLeadsOn(n - 1);
    UidsBelow(n - 1, n - 1);
    assert CHANGES[n - 1].uid == n - 1;
    dbs, es := Extended(dbs, es, Manage(CHANGES[n - 1], 0));
  }

  lemma Extended(dbs: seq<Db>, es: seq<Event>, e: Event) returns (dbs': seq<Db>, es': seq<Event>)
    requires IsRun(dbs, es) && Enabled(dbs[|es|], e)
    ensures IsRun(dbs', es') && es' == es + [e] && dbs <= dbs' && dbs'[|es'|] == Apply(dbs[|es|], e)
  {
    Extend(dbs, es, e, Apply(dbs[|es|], e));
    dbs', es' := dbs + [Apply(dbs[|es|], e)], es + [e];
  }

  const ASK: Ask := Ask(Terms(0, 9, NAMES, Some(1)), "u", "c")

  const ISSUE: TokenIssue := TokenIssue(6, 4, ASK.terms)

  lemma Authorizes(db: Db)
    requires db.policy == POLICY
    ensures var e := Authorize(5, 0, Join(NAMES), Some("r"), Some(1), "u", "c", 1, 0);
            CanAuthorize(db, e) && AskOf(db, e) == ASK
  {
    hide Normalize, Join, Resolves;
    NamesReadBack();
    PolicyGrants();
  }

  const REQUESTED: Db := Db(0, POLICY, map[4 := Member(9, true)], map[5 := AuthRequest(ASK, Pending, 1)], map[], map[],
                            map[5 := ASK], map[], map[], Uids(6))

  /** A member joins, and one request for the terms is made. */
  lemma Requested() returns (dbs: seq<Db>, es: seq<Event>)
    ensures IsRun(dbs, es) && (forall i | 0 <= i < |es| :: !es[i].Exchange?)
    ensures dbs[|es|] == REQUESTED
  {
    hide Next, CanAuthorize, AskOf, Uids, StillGranted, ManageDb, DecideDb, ExchangeDb;
    dbs, es := SetUp(4);
    UsedUids();
    dbs, es := Extended(dbs, es, AddMember(4, 9, 0));
    Authorizes(dbs[|es|]);
    dbs, es := Extended(dbs, es, Authorize(5, 0, Join(NAMES), Some("r"), Some(1), "u", "c", 1, 0));
  }

  lemma UsedUids()
    ensures Uids(4) + {4} == Uids(5) && Uids(5) + {5} == Uids(6) && Uids(6) + {6} == Uids(7)
    ensures 4 !in Uids(4) && 5 !in Uids(5) && 6 !in Uids(6) && 7 !in Uids(7)
  {
    UidsBelow(4, 4);
    UidsBelow(5, 5);
    UidsBelow(6, 6);
    UidsBelow(7, 7);
  }

  const REDEEM: Event := Exchange(6, 0, "u", "c", 7, 1, 0)

  const APPROVED: Db := Db(0, POLICY, map[4 := Member(9, true)], map[5 := AuthRequest(ASK, Approved, 1)],
                           map[6 := Code(CodeIssue(5, 4, ASK), 1, None)], map[], map[5 := ASK],
                           map[6 := CodeIssue(5, 4, ASK)],
                           map[], Uids(7))

  const APPROVE: Event := Decide(5, 4, 9, true, 6, 1, 0)

  lemma Approval()
    ensures DecideDb(REQUESTED, APPROVE) == APPROVED
  {
    hide StillGranted, Uids;
    UsedUids();
    PolicyGrants();
    assert AppLive(POLICY, 0);
  }

  /** The member approves. */
  lemma ApprovedRun() returns (dbs: seq<Db>, es: seq<Event>)
    ensures IsRun(dbs, es) && (forall i | 0 <= i < |es| :: !es[i].Exchange?)
    ensures dbs[|es|] == APPROVED
  {
    hide Next, Uids, ManageDb, AuthorizeDb, DecideDb, ExchangeDb;
    dbs, es := Requested();
    UsedUids();
    Approval();
    dbs, es := Extended(dbs, es, APPROVE);
  }

  lemma CanRedeem()
    ensures CanExchange(APPROVED, REDEEM)
  {
    hide StillGranted;
    PolicyGrants();
    assert AppLive(POLICY, 0);
  }

  /** The code is redeemed for token 7. */
  lemma TokenIssued() returns (dbs: seq<Db>, es: seq<Event>)
    ensures IsRun(dbs, es) && dbs[|es|].policy == POLICY && dbs[|es|].members == map[4 := Member(9, true)]
    ensures dbs[|es|].tokens == map[7 := Token(ISSUE, 1, None)]
  {
    hide Next, Uids, CanExchange, ManageDb, AuthorizeDb, DecideDb;
    dbs, es := ApprovedRun();
    UsedUids();
    CanRedeem();
    dbs, es := Extended(dbs, es, REDEEM);
  }

  lemma PolicyRows(db: Db)
    requires db.policy == POLICY && db.members == map[4 := Member(9, true)]
             && db.tokens == map[7 := Token(ISSUE, 1, None)]
    ensures Live(db, 7, 0) && IsRow(db, ISSUE, (3, 2)) && IsAnswer(db, ISSUE, [(3, 2)])
  {
    assert GrantLive(POLICY, 3, 0, 1);
    assert NAMES[0] == "a";
    forall row | IsRow(db, ISSUE, row) ensures row == (3, 2) {
      assert row.0 in POLICY.grants && row.1 in POLICY.grants[row.0].scopes;
    }
  }
}
