/**
 The token exchange in two steps, as it runs when other transactions commit between its grant check and its insert:
 the code row is locked, the grant and what it rests on are not.
 */
module ExchangeRaces {
  import opened Common
  import opened Scopes
  import opened Policies
  import opened Authorization
  import opened AuthorizationProofs
  import opened AuthorizationRuns
  import opened Decisions
  import opened Narrowing
  import opened SampleRun

  /** An exchange that has passed its checks; `overtaken` is history that no step reads. */
  datatype Checked = Checked(exchange: Event, overtaken: bool)

  /** `pending` is keyed by code. `loose` is history: tokens whose check, repeated at the insert, would have failed. */
  datatype Split = Split(db: Db, pending: map<Uid, Checked>, loose: set<Uid>)

  datatype Move = Step(event: Event) | Check(exchange: Event) | Insert(code: Uid, token: Uid, at: Instant)
      | Abort(code: Uid)

  /** The token an exchange is about to insert. */
  function TokenFor(db: Db, x: Event): Token
    requires x.Exchange? && x.code in db.codes
  {
    var issue := db.codes[x.code].issue;
    Token(TokenIssue(x.code, issue.member, issue.ask.terms), x.expiresAt, None)
  }

  /** The step writes a code row that a pending exchange has locked, so it waits. */
  predicate Waits(s: Split, e: Event) {
    || (e.Remove? && exists c | c in e.codes :: c in s.pending)
    || (e.Recover? && exists c | c in s.pending :: c in s.db.codes && s.db.codes[c].issue.member == e.member)
  }

  predicate Possible(s: Split, m: Move) {
    match m
    case Step(e) => Enabled(s.db, e) && !e.Exchange? && !Waits(s, e)
    case Check(x) => x.Exchange? && s.db.now <= x.at && x.code !in s.pending && CanExchange(s.db, x)
    case Insert(code, token, at) => code in s.pending && s.db.now <= at && token !in s.db.used
    case Abort(code) => code in s.pending
  }

  /** The step commits a change that would have revoked the token, had it been there. */
  predicate Overtakes(db: Db, e: Event, t: Token) {
    e.Manage? && Accepted(db.policy, e.change) && Hits(Revokes(db.policy, e.change), 0, t)
  }

  predicate OvertakesPending(db: Db, e: Event, p: Checked) {
    p.exchange.Exchange? && p.exchange.code in db.codes && Overtakes(db, e, TokenFor(db, p.exchange))
  }

  /** The second half of the exchange: nothing is checked any more. */
  function InsertDb(db: Db, x: Event, token: Uid, at: Instant): Db
    requires x.Exchange? && x.code in db.codes
  {
    var row := TokenFor(db, x);
    db.(now := at, codes := db.codes[x.code := db.codes[x.code].(consumedAt := Some(at))],
        tokens := db.tokens[token := row], issuedTokens := db.issuedTokens[token := row.issue],
        used := db.used + {token})
  }

  /** The grant check of the first half, asked of these tables; terms without a server rest on no grant. */
  predicate Passes(p: Policy, terms: Terms) {
    terms.server.Some? ==> AppLive(p, terms.app) && StillGranted(p, terms)
  }

  function Moved(s: Split, m: Move): Split {
    match m
    case Step(e) =>
      Split(Apply(s.db, e),
            map c | c in s.pending ::
              s.pending[c].(overtaken := s.pending[c].overtaken || OvertakesPending(s.db, e, s.pending[c])),
            s.loose)
    case Check(x) =>
      if x.Exchange? then s.(db := s.db.(now := x.at), pending := s.pending[x.code := Checked(x, false)]) else s
    case Insert(code, token, at) =>
      if code in s.pending && s.pending[code].exchange.Exchange? && s.pending[code].exchange.code in s.db.codes then
        var x := s.pending[code].exchange;
        Split(InsertDb(s.db, x, token, at), s.pending - {code},
              if Passes(s.db.policy, TokenFor(s.db, x).issue.terms) then s.loose else s.loose + {token})
      else s
    case Abort(code) => s.(pending := s.pending - {code})
  }

  predicate NextMove(s: Split, m: Move, s': Split) {
    Possible(s, m) && s' == Moved(s, m)
  }

  ghost predicate IsSplitRun(ss: seq<Split>, ms: seq<Move>) {
    && |ss| == |ms| + 1
    && ss[0] == Split(Init(ss[0].db.now), map[], {})
    && forall i | 0 <= i < |ms| :: NextMove(ss[i], ms[i], ss[i + 1])
  }

  /** When nothing comes in between, the two steps are the exchange in one. */
  lemma CheckAndInsertIsExchange(db: Db, x: Event)
    requires x.Exchange? && CanExchange(db, x)
    ensures InsertDb(db, x, x.token, x.at) == ExchangeDb(db, x)
  {
    hide StillGranted;
  }

  // ----- invariants -----

  /** A pending exchange still has its unconsumed code, and is covered unless it was overtaken. */
  ghost predicate PendingOk(db: Db, c: Uid, p: Checked) {
    && p.exchange.Exchange? && p.exchange.code == c && c in db.codes && db.codes[c].consumedAt.None?
    && OfTenant(db.policy, db.codes[c].issue.ask.terms)
    && (!p.overtaken ==> Covered(db.policy, db.codes[c].issue.ask.terms))
  }

  ghost predicate SplitInv(s: Split) {
    InvExcept(s.db, s.loose) && forall c | c in s.pending :: PendingOk(s.db, c, s.pending[c])
  }

  lemma ChangeKeepsTenant(p: Policy, c: Change, terms: Terms)
    requires Accepted(p, c) && FreshFor(p, c) && OfTenant(p, terms)
    ensures OfTenant(Changed(p, c), terms)
  {
  }

  /** A locked code is left alone by every step that does not wait. */
  lemma StepKeepsCode(s: Split, e: Event, c: Uid)
    requires Possible(s, Step(e)) && c in s.pending && c in s.db.codes && c in s.db.used
    ensures c in Apply(s.db, e).codes && Apply(s.db, e).codes[c] == s.db.codes[c]
  {
    hide ManageDb, AuthorizeDb, StillGranted, Revoke;
    match e
    case Manage(_, _) =>
    case Authorize(_, _, _, _, _, _, _, _, _) =>
    case _ =>
  }

  lemma ChangeKeepsPending(p: Policy, c: Change, t: Token)
    requires Accepted(p, c) && FreshFor(p, c) && OfTenant(p, t.issue.terms)
    ensures OfTenant(Changed(p, c), t.issue.terms)
    ensures Covered(p, t.issue.terms) && !Hits(Revokes(p, c), 0, t) ==> Covered(Changed(p, c), t.issue.terms)
  {
    hide Accepted, Changed, Revokes, FreshFor, OfTenant, Covered, Hits;
    ChangeKeepsTenant(p, c, t.issue.terms);
    if Covered(p, t.issue.terms) && !Hits(Revokes(p, c), 0, t) {
      ChangeKeepsCovered(p, c, 0, t);
    }
  }

  lemma ManageKeepsPending(db: Db, c: Change, at: Instant, code: Uid, p: Checked)
    requires PolicyUids(db.policy, db.used) && (Creates(c) ==> c.uid !in db.used) && PendingOk(db, code, p)
    ensures var db' := ManageDb(db, c, at);
            PendingOk(db', code, p.(overtaken := p.overtaken || OvertakesPending(db, Manage(c, at), p)))
  {
    hide Accepted, Changed, Revokes, Revoke, Covered, OfTenant, Hits, FreshFor, PolicyUids;
    assert ManageDb(db, c, at).codes == db.codes;
    if Accepted(db.policy, c) {
      FreshUid(db.policy, db.used, c);
      assert ManageDb(db, c, at).policy == Changed(db.policy, c);
      ChangeKeepsPending(db.policy, c, TokenFor(db, p.exchange));
    } else {
      assert ManageDb(db, c, at).policy == db.policy;
    }
  }

  lemma CodeIsUsed(db: Db, c: Uid)
    requires ChainOk(db) && c in db.codes
    ensures c in db.used
  {
    hide RequestsOk, OneCodeEach, TokensOk, OneTokenEach;
  }

  lemma StepKeepsPending(s: Split, e: Event, c: Uid)
    requires SplitInv(s) && Possible(s, Step(e)) && c in s.pending
    ensures PendingOk(Apply(s.db, e), c, Moved(s, Step(e)).pending[c])
  {
    hide Covered, OfTenant, PolicyOk, TokensCovered, ChainOk, ManageDb, AuthorizeDb, DecideDb, ExchangeDb,
         Accepted, Overtakes;
    var p := s.pending[c];
    assert PendingOk(s.db, c, p);
    if e.Manage? {
      ManageKeepsPending(s.db, e.change, e.at, c, p);
    } else {
      CodeIsUsed(s.db, c);
      StepKeepsCode(s, e, c);
      assert !OvertakesPending(s.db, e, p) by {
        NoOvertaking(s.db, e, p);
      }
    }
  }

  lemma NoOvertaking(db: Db, e: Event, p: Checked)
    requires !e.Manage?
    ensures !OvertakesPending(db, e, p)
  {
  }

  lemma StepKeepsSplit(s: Split, e: Event)
    requires SplitInv(s) && Possible(s, Step(e))
    ensures SplitInv(Moved(s, Step(e)))
  {
    hide InvExcept, PendingOk, Apply, Enabled, Waits, OvertakesPending;
    StepKeepsInv(s.db, s.loose, e, Apply(s.db, e));
    forall c | c in s.pending ensures PendingOk(Apply(s.db, e), c, Moved(s, Step(e)).pending[c]) {
      StepKeepsPending(s, e, c);
    }
  }

  /** Passing the check makes the exchange covered. */
  lemma CheckKeepsSplit(s: Split, x: Event)
    requires SplitInv(s) && Possible(s, Check(x))
    ensures SplitInv(Moved(s, Check(x)))
  {
    hide PolicyOk, TokensCovered, RequestsOk, CodesOk, OneCodeEach, TokensOk, OneTokenEach, LogUids, PolicyUids,
         Covered, TermsOk;
    CodeTermsOk(s.db, x.code);
    StillGrantedIsCovered(s.db.policy, s.db.codes[x.code].issue.ask.terms);
    var s' := Moved(s, Check(x));
    forall c | c in s'.pending ensures PendingOk(s'.db, c, s'.pending[c]) {
      assert c != x.code ==> PendingOk(s.db, c, s.pending[c]);
    }
  }

  /** A token inserted without a further check is covered exactly when the check, repeated now, would pass. */
  lemma InsertedIsCoveredIff(s: Split, m: Move)
    requires SplitInv(s) && m.Insert? && Possible(s, m)
    ensures var terms := TokenFor(s.db, s.pending[m.code].exchange).issue.terms;
            && (Covered(s.db.policy, terms) <==> Passes(s.db.policy, terms))
            && (!s.pending[m.code].overtaken ==> Covered(s.db.policy, terms))
  {
    hide PolicyOk, TokensCovered, PolicyUids, TermsOk, StillGranted, OfTenant, ChainOk;
    assert PendingOk(s.db, m.code, s.pending[m.code]);
    var terms := s.db.codes[m.code].issue.ask.terms;
    CodeTermsOk(s.db, m.code);
    if AppLive(s.db.policy, terms.app) {
      StillGrantedIffCovered(s.db.policy, terms);
    }
  }

  lemma AddLoose(p: Policy, tokens: Tokens, loose: set<Uid>, t: Uid, row: Token)
    requires TokensCovered(p, tokens, loose)
    ensures TokensCovered(p, tokens[t := row], loose + {t})
  {
    hide Covered;
  }

  lemma InsertKeepsSplit(s: Split, m: Move)
    requires SplitInv(s) && m.Insert? && Possible(s, m)
    ensures SplitInv(Moved(s, m))
  {
    hide PolicyOk, TokensCovered, RequestsOk, CodesOk, OneCodeEach, TokensOk, OneTokenEach, LogUids, PolicyUids,
         Covered, OfTenant, Passes;
    assert PendingOk(s.db, m.code, s.pending[m.code]);
    InsertedIsCoveredIff(s, m);
    var row := TokenFor(s.db, s.pending[m.code].exchange);
    NewToken(s.db, m.code, m.token, row, m.at);
    AddLoose(s.db.policy, s.db.tokens, s.loose, m.token, row);
    if Covered(s.db.policy, row.issue.terms) {
      AddCovered(s.db.policy, s.db.tokens, s.loose, m.token, row);
    }
    MoreUids(s.db, m.token);
    var s' := Moved(s, m);
    forall c | c in s'.pending ensures PendingOk(s'.db, c, s'.pending[c]) {
      assert PendingOk(s.db, c, s.pending[c]);
    }
  }

  lemma MoveKeepsSplit(s: Split, m: Move, s': Split)
    requires SplitInv(s) && NextMove(s, m, s')
    ensures SplitInv(s')
  {
    hide Possible, Moved, InvExcept, PendingOk;
    match m
    case Step(e) => StepKeepsSplit(s, e);
    case Check(x) => CheckKeepsSplit(s, x);
    case Insert(_, _, _) => InsertKeepsSplit(s, m);
    case Abort(_) => AbortKeepsSplit(s, m);
  }

  lemma AbortKeepsSplit(s: Split, m: Move)
    requires SplitInv(s) && m.Abort?
    ensures SplitInv(Moved(s, m))
  {
    hide InvExcept, PendingOk;
  }

  lemma StartOk(now: Instant)
    ensures SplitInv(Split(Init(now), map[], {}))
  {
    InitOk(now);
  }

  lemma {:induction false} ReachableSplit(ss: seq<Split>, ms: seq<Move>, i: nat)
    requires IsSplitRun(ss, ms) && i < |ss|
    ensures SplitInv(ss[i])
  {
    hide NextMove, SplitInv;
    if i == 0 {
      StartOk(ss[0].db.now);
    } else {
      ReachableSplit(ss, ms, i - 1);
      MoveKeepsSplit(ss[i - 1], ms[i - 1], ss[i]);
    }
  }

  // ----- over whole runs -----

  /**
   Every unrevoked token is covered in every reachable state, but for those inserted when the check no longer
   passed.
   */
  lemma OnlyLooseTokensAreUncovered(ss: seq<Split>, ms: seq<Move>, i: nat, t: Uid)
    requires IsSplitRun(ss, ms) && i < |ss| && t in ss[i].db.tokens && ss[i].db.tokens[t].revokedAt.None?
    requires t !in ss[i].loose
    ensures Covered(ss[i].db.policy, ss[i].db.tokens[t].issue.terms)
  {
    hide NextMove, Covered;
    ReachableSplit(ss, ms, i);
  }

  /**
   The insert of step k makes a token loose exactly when it is not covered right then, and that only happens to an
   exchange that a revoking change overtook.
   */
  lemma LooseIffUncoveredAtInsert(ss: seq<Split>, ms: seq<Move>, k: nat)
    requires IsSplitRun(ss, ms) && k < |ms| && ms[k].Insert?
    ensures var t := ms[k].token;
            && t in ss[k + 1].db.tokens && ss[k + 1].db.tokens[t].revokedAt.None?
            && (t in ss[k + 1].loose <==> !Covered(ss[k + 1].db.policy, ss[k + 1].db.tokens[t].issue.terms))
            && (t in ss[k + 1].loose ==> ms[k].code in ss[k].pending && ss[k].pending[ms[k].code].overtaken)
  {
    hide InvExcept, Covered, Passes;
    ReachableSplit(ss, ms, k);
    assert NextMove(ss[k], ms[k], ss[k + 1]);
    InsertedIsCoveredIff(ss[k], ms[k]);
    LooseAreUsed(ss, ms, k);
    assert PendingOk(ss[k].db, ms[k].code, ss[k].pending[ms[k].code]);
  }

  lemma {:induction false} LooseAreUsed(ss: seq<Split>, ms: seq<Move>, i: nat)
    requires IsSplitRun(ss, ms) && i < |ss|
    ensures ss[i].loose <= ss[i].db.used
  {
    hide Passes, Apply, InsertDb, CanExchange;
    if i > 0 {
      LooseAreUsed(ss, ms, i - 1);
      assert NextMove(ss[i - 1], ms[i - 1], ss[i]);
      UsedStays(ss[i - 1], ms[i - 1]);
    }
  }

  lemma UsedStays(s: Split, m: Move)
    requires Possible(s, m)
    ensures s.db.used <= Moved(s, m).db.used
    ensures Moved(s, m).loose <= s.loose + if m.Insert? then {m.token} else {}
    ensures Moved(s, m).loose != s.loose ==> m.Insert? && m.token in Moved(s, m).db.used
  {
    hide Apply, Enabled, Passes, CanExchange, Waits, TokensFrame, CodesFrame, RequestsFrame;
    if m.Step? {
      StepFrame(s.db, m.event, Apply(s.db, m.event));
    }
  }

  // ----- between check and insert -----

  /** The move leaves the pending exchange of this code pending. */
  predicate KeepsPending(m: Move, c: Uid) {
    !(m.Insert? && m.code == c) && !(m.Abort? && m.code == c)
        && !(m.Check? && m.exchange.Exchange? && m.exchange.code == c)
  }

  predicate OvertakesAt(s: Split, m: Move, c: Uid) {
    m.Step? && c in s.pending && OvertakesPending(s.db, m.event, s.pending[c])
  }

  /**
   An exchange checked in step a is overtaken exactly when a step since then commits a change that would have hit
   it.
   */
  lemma {:induction false} OvertakenIffHit(ss: seq<Split>, ms: seq<Move>, a: nat, b: nat, c: Uid)
    requires IsSplitRun(ss, ms) && a < b < |ss| && ms[a].Check? && ms[a].exchange.Exchange? && ms[a].exchange.code == c
    requires forall k | a < k < b :: KeepsPending(ms[k], c)
    ensures c in ss[b].pending && ss[b].pending[c].exchange == ms[a].exchange
    ensures ss[b].pending[c].overtaken <==> exists k | a < k < b :: OvertakesAt(ss[k], ms[k], c)
  {
    hide Possible, Apply, OvertakesPending, Passes, InsertDb;
    assert NextMove(ss[b - 1], ms[b - 1], ss[b]);
    if a + 1 < b {
      OvertakenIffHit(ss, ms, a, b - 1, c);
      assert KeepsPending(ms[b - 1], c);
      assert ss[b].pending[c].overtaken <==> ss[b - 1].pending[c].overtaken || OvertakesAt(ss[b - 1], ms[b - 1], c);
    }
  }

  predicate NarrowsAt(s: Split, m: Move, terms: Terms) {
    && m.Step? && m.event.Manage? && Accepted(s.db.policy, m.event.change)
    && Narrows(s.db.policy, m.event.change, terms)
  }

  lemma MoveUncoversIff(s: Split, m: Move, terms: Terms)
    requires SplitInv(s) && Possible(s, m) && terms.server.Some? && Covered(s.db.policy, terms)
    ensures Covered(Moved(s, m).db.policy, terms) <==> !NarrowsAt(s, m, terms)
  {
    hide PolicyOk, TokensCovered, ChainOk, PolicyUids, Accepted, Changed, Revokes, Revoke, Covered, Narrows, FreshFor,
         Waits, CanExchange, Passes, AuthorizeDb, DecideDb, ExchangeDb, PendingOk;
    if m.Step? && m.event.Manage? && Accepted(s.db.policy, m.event.change) {
      FreshUid(s.db.policy, s.db.used, m.event.change);
      ChangeUncoversIffNarrows(s.db.policy, m.event.change, terms);
    }
  }

  /**
   Terms covered at the check stay covered at every moment up to the insert exactly when no change in between
   narrows them.
   */
  lemma {:induction false} CoveredThroughoutIffNoneNarrows(ss: seq<Split>, ms: seq<Move>, a: nat, b: nat, terms: Terms)
    requires IsSplitRun(ss, ms) && a <= b < |ss| && terms.server.Some? && Covered(ss[a].db.policy, terms)
    ensures (forall k | a <= k <= b :: Covered(ss[k].db.policy, terms))
            <==> (forall k | a <= k < b :: !NarrowsAt(ss[k], ms[k], terms))
  {
    hide Possible, Moved, Covered, NarrowsAt, SplitInv;
    if a < b {
      CoveredThroughoutIffNoneNarrows(ss, ms, a, b - 1, terms);
      assert NextMove(ss[b - 1], ms[b - 1], ss[b]);
      if Covered(ss[b - 1].db.policy, terms) {
        ReachableSplit(ss, ms, b - 1);
        MoveUncoversIff(ss[b - 1], ms[b - 1], terms);
      }
    }
  }

  /**
   Every pending exchange passed its check in an earlier step: the code was unexpired and unconsumed then, issued to
   this client for this redirect URI and challenge, and application and member were active.
   */
  lemma {:induction false} PendingWasChecked(ss: seq<Split>, ms: seq<Move>, b: nat, c: Uid) returns (a: nat)
    requires IsSplitRun(ss, ms) && b < |ss| && c in ss[b].pending
    ensures a < b && ms[a].Check? && ms[a].exchange == ss[b].pending[c].exchange && ms[a].exchange.Exchange?
    ensures ms[a].exchange.code == c && c in ss[a].db.codes
    ensures var db, x := ss[a].db, ms[a].exchange;
            var row := db.codes[c];
            && row.consumedAt.None? && x.at < row.expiresAt && row.issue.ask.terms.app == x.client
            && row.issue.ask.redirectUri == x.redirectUri && row.issue.ask.challenge == x.challenge
            && IsActive(db, x.client) && db.policy.apps[x.client].tenant == row.issue.ask.terms.tenant
            && row.issue.member in db.members && db.members[row.issue.member].active
  {
    hide Apply, StillGranted, Enabled, Waits, OvertakesPending, InsertDb, Passes;
    a := b - 1;
    assert NextMove(ss[a], ms[a], ss[b]);
    if c in ss[a].pending && !(ms[a].Check? && ms[a].exchange.Exchange? && ms[a].exchange.code == c) {
      a := PendingWasChecked(ss, ms, a, c);
    }
  }

  // ----- an uncovered token, and what it is good for -----

  lemma ExtendSplit(ss: seq<Split>, ms: seq<Move>, m: Move) returns (ss': seq<Split>, ms': seq<Move>)
    requires IsSplitRun(ss, ms) && Possible(ss[|ms|], m)
    ensures IsSplitRun(ss', ms') && ms' == ms + [m] && ss'[|ms'|] == Moved(ss[|ms|], m)
  {
    hide Possible, Moved;
    ss', ms' := ss + [Moved(ss[|ms|], m)], ms + [m];
    forall i | 0 <= i < |ms'| ensures NextMove(ss'[i], ms'[i], ss'[i + 1]) {
      if i < |ms| {
        assert NextMove(ss[i], ms[i], ss[i + 1]);
      }
    }
  }

  /** A run without exchanges is a run of the split machine. */
  lemma {:induction false} Lifted(dbs: seq<Db>, es: seq<Event>, n: nat) returns (ss: seq<Split>, ms: seq<Move>)
    requires IsRun(dbs, es) && n <= |es| && forall i | 0 <= i < |es| :: !es[i].Exchange?
    ensures IsSplitRun(ss, ms) && ss[|ms|] == Split(dbs[n], map[], {})
  {
    hide Enabled, Apply, OvertakesPending, CanExchange;
    if n == 0 {
      return [Split(dbs[0], map[], {})], [];
    }
    ss, ms := Lifted(dbs, es, n - 1);
    assert Next(dbs[n - 1], es[n - 1], dbs[n]);
    ss, ms := ExtendSplit(ss, ms, Step(es[n - 1]));
  }

  const DROP_GRANT: Event := Manage(DeleteGrant(3, 9, 0, 1), 0)

  /** The grant is deleted between check and insert: the run ends with an unrevoked token that no grant covers. */
  lemma UncoveredTokenIsInserted() returns (ss: seq<Split>, ms: seq<Move>)
    ensures IsSplitRun(ss, ms)
    ensures var db := ss[|ms|].db;
            7 in db.tokens && db.tokens[7].revokedAt.None? && !Covered(db.policy, db.tokens[7].issue.terms)
  {
    hide CanExchange, Uids, Passes, Accepted, Changed, OvertakesPending;
    ss, ms := GrantDropped();
    UsedUids();
    ss, ms := ExtendSplit(ss, ms, Insert(6, 7, 0));
    NothingIsCovered(ss[|ms|].db.policy);
  }

  /** The exchange has passed its check, and the grant is deleted. */
  lemma GrantDropped() returns (ss: seq<Split>, ms: seq<Move>)
    ensures IsSplitRun(ss, ms)
    ensures var s := ss[|ms|];
            && 6 in s.pending && s.pending[6].exchange == REDEEM && s.db.codes == APPROVED.codes && s.db.now == 0
            && s.db.used == Uids(7) && s.db.policy.grants.Keys == {3} && s.db.policy.grants[3].deleted
  {
    hide CanExchange, Uids, OvertakesPending, Revokes, Revoke, Accepted, Changed, AuthorizeDb, DecideDb, ExchangeDb;
    var dbs, es := ApprovedRun();
    CanRedeem();
    UsedUids();
    ss, ms := Lifted(dbs, es, |es|);
    ss, ms := ExtendSplit(ss, ms, Check(REDEEM));
    GrantDeletion();
    UidsBelow(7, 3);
    assert Uids(7) + {3} == Uids(7);
    ss, ms := ExtendSplit(ss, ms, Step(DROP_GRANT));
  }

  lemma GrantDeletion()
    ensures Accepted(POLICY, DROP_GRANT.change)
    ensures var p := Changed(POLICY, DROP_GRANT.change); p.grants.Keys == {3} && p.grants[3].deleted
  {
  }

  lemma NothingIsCovered(p: Policy)
    requires p.grants.Keys == {3} && p.grants[3].deleted
    ensures !Covered(p, ASK.terms)
  {
    assert forall g :: !CoveredBy(p, ASK.terms, g);
  }

  lemma NamedIsAssigned(db: Db, issue: TokenIssue, rows: seq<(Uid, Uid)>, g: Uid, v: string)
    requires PolicyOk(db.policy) && IsAnswer(db, issue, rows) && InScopes(db.policy, rows)
             && v in Names(db.policy, rows)
    requires issue.terms.server.Some? && GrantLive(db.policy, g, issue.terms.app, issue.terms.server.value)
    ensures exists u :: AssignedBy(db.policy, g, issue.terms.server.value, v, u)
  {
    var i :| 0 <= i < |rows| && Names(db.policy, rows)[i] == v;
    assert IsRow(db, issue, rows[i]);
    assert rows[i].0 in db.policy.grants && g in db.policy.grants;
    assert AssignedBy(db.policy, g, issue.terms.server.value, v, rows[i].1);
  }

  /**
   An uncovered token gets no more than the tables grant: of an unrevoked, unexpired token of an active member, the
   bearer check refuses it or the capabilities lack a delegated scope exactly when the token is not covered; and every
   capability is assigned by a live grant right then.
   */
  lemma UncoveredTokensAreCutBack(ss: seq<Split>, ms: seq<Move>, i: nat, t: Uid, now: Instant, rows: seq<(Uid, Uid)>)
    requires IsSplitRun(ss, ms) && i < |ss| && t in ss[i].db.tokens && ss[i].db.tokens[t].revokedAt.None?
    requires now < ss[i].db.tokens[t].expiresAt && ss[i].db.tokens[t].issue.terms.server.Some?
    requires MemberActive(ss[i].db, ss[i].db.tokens[t].issue.member)
             && IsAnswer(ss[i].db, ss[i].db.tokens[t].issue, rows)
    ensures InScopes(ss[i].db.policy, rows)
    ensures var db, terms := ss[i].db, ss[i].db.tokens[t].issue.terms;
            && (Covered(db.policy, terms)
                <==> Live(db, t, now) && forall v | v in terms.scopes && !IsOidc(v) :: v in Names(db.policy, rows))
            && (forall v | v in Names(db.policy, rows) ::
                  exists g, u :: GrantLive(db.policy, g, terms.app, terms.server.value)
                                 && AssignedBy(db.policy, g, terms.server.value, v, u))
  {
    hide NextMove, PendingOk, TokensCovered, PolicyUids, ChainOk;
    ReachableSplit(ss, ms, i);
    ServedIffCovered(ss[i].db, t, now, rows);
  }

  lemma ServedIffCovered(db: Db, t: Uid, now: Instant, rows: seq<(Uid, Uid)>)
    requires PolicyOk(db.policy) && t in db.tokens && db.tokens[t].revokedAt.None? && now < db.tokens[t].expiresAt
    requires db.tokens[t].issue.terms.server.Some? && MemberActive(db, db.tokens[t].issue.member)
    requires IsAnswer(db, db.tokens[t].issue, rows)
    ensures InScopes(db.policy, rows)
    ensures var terms := db.tokens[t].issue.terms;
            && (Covered(db.policy, terms)
                <==> Live(db, t, now) && forall v | v in terms.scopes && !IsOidc(v) :: v in Names(db.policy, rows))
            && (forall v | v in Names(db.policy, rows) ::
                  exists g, u :: GrantLive(db.policy, g, terms.app, terms.server.value)
                                 && AssignedBy(db.policy, g, terms.server.value, v, u))
  {
    hide PolicyOk, IsAnswer, IsOidc, AssignedBy;
    var issue := db.tokens[t].issue;
    var server := issue.terms.server.value;
    NamesAreDistinct(db, issue, rows);
    if Covered(db.policy, issue.terms) {
      var g: Uid :| CoveredBy(db.policy, issue.terms, g);
      forall v | v in issue.terms.scopes && !IsOidc(v) ensures v in Names(db.policy, rows) {
        DelegatedIsNamed(db, issue, rows, v);
      }
    }
    forall v | v in Names(db.policy, rows)
      ensures exists g, u :: GrantLive(db.policy, g, issue.terms.app, server) && AssignedBy(db.policy, g, server, v, u)
    {
      RowBehindName(db, issue, rows, v);
    }
    if Live(db, t, now) && forall v | v in issue.terms.scopes && !IsOidc(v) :: v in Names(db.policy, rows) {
      var g: Uid :| g in db.policy.grants && GrantLive(db.policy, g, issue.terms.app, server);
      forall v | v in issue.terms.scopes && !IsOidc(v) ensures exists u :: AssignedBy(db.policy, g, server, v, u) {
        NamedIsAssigned(db, issue, rows, g, v);
      }
      assert CoveredBy(db.policy, issue.terms, g);
    }
  }

  lemma RowBehindName(db: Db, issue: TokenIssue, rows: seq<(Uid, Uid)>, v: string)
    requires IsAnswer(db, issue, rows) && InScopes(db.policy, rows) && v in Names(db.policy, rows)
             && issue.terms.server.Some?
    ensures exists g, u :: GrantLive(db.policy, g, issue.terms.app, issue.terms.server.value)
                           && AssignedBy(db.policy, g, issue.terms.server.value, v, u)
  {
    var i :| 0 <= i < |rows| && Names(db.policy, rows)[i] == v;
    assert IsRow(db, issue, rows[i]);
    assert AssignedBy(db.policy, rows[i].0, issue.terms.server.value, v, rows[i].1);
  }
}
