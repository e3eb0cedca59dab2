/** Signing-key rotation and publication (internal/api/oauth_signing.go). */
module SigningKeys {
  import opened Common

  datatype KeyStatus = Active | Retiring | Retired

  datatype SigningKey = SigningKey(status: KeyStatus, createdAt: Instant, publishUntil: Option<Instant>)

  type Keys = map<Uid, SigningKey>

  /** Both durations may be zero or negative, which selects the built-in values. */
  datatype Config = Config(accessTokenTtl: Duration, keyMaxAge: Duration)

  function MaxAge(cfg: Config): Duration {
    if cfg.keyMaxAge <= 0 then 30 * DAY else cfg.keyMaxAge
  }

  function TokenLifetime(cfg: Config): Duration {
    if cfg.accessTokenTtl > 0 then cfg.accessTokenTtl else 10 * MINUTE
  }

  function PublicationWindow(cfg: Config): Duration {
    var window := cfg.accessTokenTtl + 5 * MINUTE;
    if window < 15 * MINUTE then 15 * MINUTE else window
  }

  /** An active key, or none when no key is active. */
  predicate IsActive(keys: Keys, active: Option<Uid>) {
    match active
    case Some(k) => k in keys && keys[k].status == Active
    case None => forall k | k in keys :: keys[k].status != Active
  }

  predicate StillYoung(keys: Keys, active: Option<Uid>, cfg: Config, now: Instant) {
    active.Some? && active.value in keys && keys[active.value].createdAt + MaxAge(cfg) > now
  }

  function RetireExpired(keys: Keys, now: Instant): Keys {
    map k | k in keys ::
      if keys[k].status == Retiring && keys[k].publishUntil.Some? && keys[k].publishUntil.value <= now then
        keys[k].(status := Retired)
      else keys[k]
  }

  /** The whole transaction; `kid` is the fresh key it would insert. */
  function EnsureKeys(keys: Keys, active: Option<Uid>, cfg: Config, now: Instant, kid: Uid): Keys
    requires active.Some? ==> active.value in keys
  {
    if StillYoung(keys, active, cfg, now) then keys
    else
      var stepped :=
        if active.None? then keys
        else
          var retiring := keys[active.value].(status := Retiring, publishUntil := Some(now + PublicationWindow(cfg)));
          keys[active.value := retiring];
      RetireExpired(stepped[kid := SigningKey(Active, now, None)], now)
  }

  /** What the key-set endpoint serves at an instant. */
  predicate Published(keys: Keys, k: Uid, at: Instant) {
    && k in keys
    && (keys[k].status == Active
        || (keys[k].status == Retiring && keys[k].publishUntil.Some? && keys[k].publishUntil.value > at))
  }

  class KeyRing {
    var keys: Keys
    const cfg: Config

    constructor (cfg: Config)
      ensures keys == map[] && this.cfg == cfg
    {
      keys := map[];
      this.cfg := cfg;
    }

    method FindActive() returns (active: Option<Uid>)
      ensures IsActive(keys, active)
    {
      var rest: set<Uid> := keys.Keys;
      while rest != {}
        invariant rest <= keys.Keys
        invariant forall k | k in keys && k !in rest :: keys[k].status != Active
        decreases |rest|
      {
        var k :| k in rest;
        if keys[k].status == Active {
          return Some(k);
        }
        rest := rest - {k};
      }
      active := None;
    }

    method EnsureSigningKey(now: Instant, kid: Uid) returns (active: Option<Uid>)
      requires kid !in keys
      modifies this
      ensures IsActive(old(keys), active)
      ensures keys == EnsureKeys(old(keys), active, cfg, now, kid)
    {
      active := FindActive();
      var maxAge := cfg.keyMaxAge;
      if maxAge <= 0 {
        maxAge := 30 * DAY;
      }
      if active.Some? && keys[active.value].createdAt + maxAge > now {
        return;
      }
      if active.Some? {
        var window := cfg.accessTokenTtl + 5 * MINUTE;
        if window < 15 * MINUTE {
          window := 15 * MINUTE;
        }
        keys := keys[active.value := keys[active.value].(status := Retiring, publishUntil := Some(now + window))];
      }
      keys := keys[kid := SigningKey(Active, now, None)];
      keys := RetireExpired(keys, now);
    }
  }

  // ----- runs -----

  datatype Token = Token(kid: Uid, expiresAt: Instant)

  datatype State = State(now: Instant, keys: Keys, tokens: set<Token>)

  /** A step's own stamp may trail the database's clock by `lag` (late commits included) or run `ahead` of it. */
  datatype Clocks = Clocks(lag: nat, ahead: nat)

  /** `appNow` and `issuedAt` are server readings, `at` is the database clock when the step takes effect. */
  datatype Event =
    | Rotate(active: Option<Uid>, appNow: Instant, kid: Uid, at: Instant)
    | Sign(issuedAt: Instant, kid: Uid, at: Instant)

  /** A token may be stamped arbitrarily long before it is signed; that only makes it expire sooner. */
  predicate Enabled(s: State, e: Event, clocks: Clocks) {
    && s.now <= e.at
    && match e
       case Rotate(active, appNow, kid, at) =>
         IsActive(s.keys, active) && kid !in s.keys && at - clocks.lag <= appNow <= at + clocks.ahead
       case Sign(issuedAt, kid, at) =>
         kid in s.keys && s.keys[kid].status == Active && issuedAt <= at + clocks.ahead
  }

  function Apply(s: State, e: Event, cfg: Config, clocks: Clocks): State
    requires Enabled(s, e, clocks)
  {
    match e
    case Rotate(active, appNow, kid, at) => s.(now := at, keys := EnsureKeys(s.keys, active, cfg, appNow, kid))
    case Sign(issuedAt, kid, at) =>
      s.(now := at, tokens := s.tokens + {Token(kid, issuedAt + TokenLifetime(cfg))})
  }

  ghost predicate IsRun(ss: seq<State>, es: seq<Event>, cfg: Config, clocks: Clocks) {
    && |ss| == |es| + 1
    && ss[0] == State(ss[0].now, map[], {})
    && forall i | 0 <= i < |es| :: Enabled(ss[i], es[i], clocks) && ss[i + 1] == Apply(ss[i], es[i], cfg, clocks)
  }

  /** How much longer a retiring key is published than the last token it signed may live. */
  function Slack(cfg: Config): Duration {
    PublicationWindow(cfg) - TokenLifetime(cfg)
  }

  lemma SlackIsFiveMinutesOrMore(cfg: Config)
    ensures Slack(cfg) >= 5 * MINUTE
    ensures cfg.accessTokenTtl <= 0 || cfg.accessTokenTtl >= 10 * MINUTE ==> Slack(cfg) == 5 * MINUTE
  {
  }

  /** How long a retired key is kept at least: to the end of its publication, and to the next rotation. */
  function KeptFor(cfg: Config): Duration {
    if PublicationWindow(cfg) < MaxAge(cfg) then MaxAge(cfg) else PublicationWindow(cfg)
  }

  /** What the clocks may differ by; the second part only matters when keys may rotate within the publication window. */
  predicate ClocksFit(cfg: Config, clocks: Clocks) {
    && clocks.lag + clocks.ahead <= Slack(cfg)
    && clocks.lag + 2 * clocks.ahead <= KeptFor(cfg) - TokenLifetime(cfg)
  }

  /**
   Without servers ahead of the database, and with keys older than publication by that lead, only the slack counts.
   */
  lemma SlackDecides(cfg: Config, clocks: Clocks)
    requires clocks.ahead == 0 || PublicationWindow(cfg) + clocks.ahead <= MaxAge(cfg)
    ensures ClocksFit(cfg, clocks) <==> clocks.lag + clocks.ahead <= Slack(cfg)
  {
  }

  /** The last token a key signed expires this much before the key leaves publication. */
  predicate TokenOk(s: State, t: Token, cfg: Config, clocks: Clocks) {
    && t.kid in s.keys
    && var k := s.keys[t.kid];
       match k.status
       case Active => t.expiresAt <= s.now + clocks.ahead + TokenLifetime(cfg)
       case Retiring =>
         && k.publishUntil.Some?
         && t.expiresAt + Slack(cfg) <= k.publishUntil.value + clocks.lag + clocks.ahead
         && forall l | l in s.keys && s.keys[l].status == Active ::
              k.publishUntil.value <= s.keys[l].createdAt + PublicationWindow(cfg)
       case Retired => t.expiresAt <= s.now
  }

  predicate OneActive(s: State) {
    forall k, l | k in s.keys && l in s.keys && s.keys[k].status == Active && s.keys[l].status == Active :: k == l
  }

  predicate SomeActive(s: State) {
    exists k | k in s.keys :: s.keys[k].status == Active
  }

  lemma StepKeepsToken(s: State, e: Event, cfg: Config, clocks: Clocks, t: Token)
    requires Enabled(s, e, clocks) && ClocksFit(cfg, clocks) && TokenOk(s, t, cfg, clocks)
    requires OneActive(s) && SomeActive(s)
    ensures TokenOk(Apply(s, e, cfg, clocks), t, cfg, clocks)
  {
  }

  lemma {:induction false} ReachableTokenOk(ss: seq<State>, es: seq<Event>, cfg: Config, clocks: Clocks,
      i: nat, t: Token)
    requires IsRun(ss, es, cfg, clocks) && i < |ss| && ClocksFit(cfg, clocks) && t in ss[i].tokens
    ensures TokenOk(ss[i], t, cfg, clocks)
  {
    if i > 0 && t in ss[i - 1].tokens {
      ReachableTokenOk(ss, es, cfg, clocks, i - 1, t);
      ExactlyOneActive(ss, es, cfg, clocks, i - 1);
      StepKeepsToken(ss[i - 1], es[i - 1], cfg, clocks, t);
    }
  }

  lemma StepKeepsOneActive(s: State, e: Event, cfg: Config, clocks: Clocks)
    requires OneActive(s) && Enabled(s, e, clocks)
    ensures OneActive(Apply(s, e, cfg, clocks))
    ensures e.Rotate? || SomeActive(s) ==> SomeActive(Apply(s, e, cfg, clocks))
  {
    var s' := Apply(s, e, cfg, clocks);
    if e.Rotate? && !StillYoung(s.keys, e.active, cfg, e.appNow) {
      assert s'.keys[e.kid].status == Active;
    } else {
      assert s'.keys == s.keys;
    }
  }

  /** In every state after the first rotation exactly one key is active, however far the clocks differ. */
  lemma {:induction false} ExactlyOneActive(ss: seq<State>, es: seq<Event>, cfg: Config, clocks: Clocks, i: nat)
    requires IsRun(ss, es, cfg, clocks) && i < |ss|
    ensures OneActive(ss[i])
    ensures (exists j | 0 <= j < i :: es[j].Rotate?) ==> SomeActive(ss[i])
    ensures ss[i].keys != map[] ==> SomeActive(ss[i])
  {
    if i > 0 {
      ExactlyOneActive(ss, es, cfg, clocks, i - 1);
      StepKeepsOneActive(ss[i - 1], es[i - 1], cfg, clocks);
    }
  }

  /**
   A rotation replaces the active key exactly when there is none or it has reached its age limit, thirty days unless
   configured; otherwise it changes nothing. The replaced key is published on, and keys past publication are retired.
   */
  lemma RotatesExactlyWhenDue(ss: seq<State>, es: seq<Event>, cfg: Config, clocks: Clocks, k: nat, was: Uid)
    requires IsRun(ss, es, cfg, clocks) && k < |es| && es[k].Rotate?
    ensures var keys, keys', stamp := ss[k].keys, ss[k + 1].keys, es[k].appNow;
            var limit := if cfg.keyMaxAge > 0 then cfg.keyMaxAge else 30 * DAY;
            var young := exists a | a in keys :: keys[a].status == Active && stamp < keys[a].createdAt + limit;
            && (young ==> keys' == keys)
            && (!young ==>
                  && es[k].kid in keys' && keys'[es[k].kid] == SigningKey(Active, stamp, None)
                  && (was in keys ==>
                        && was in keys' && keys'[was].createdAt == keys[was].createdAt
                        && (keys[was].status == Active ==>
                              && keys'[was].status == Retiring && keys'[was].publishUntil.Some?
                              && keys'[was].publishUntil.value - stamp >= 15 * MINUTE
                              && keys'[was].publishUntil.value - stamp >= cfg.accessTokenTtl + 5 * MINUTE)
                        && (keys[was].status == Retiring && keys[was].publishUntil.Some? ==>
                              keys'[was] == if keys[was].publishUntil.value <= stamp
                                            then keys[was].(status := Retired) else keys[was])))
  {
    ExactlyOneActive(ss, es, cfg, clocks, k);
    var s, e := ss[k], es[k];
    assert Enabled(s, e, clocks) && ss[k + 1] == Apply(s, e, cfg, clocks);
    if e.active.Some? {
      assert s.keys[e.active.value].status == Active;
    }
  }

  /** Rotation keeps tokens verifiable: while the clocks fit, the key of every unexpired token is published. */
  lemma UnexpiredTokensAreVerifiable(ss: seq<State>, es: seq<Event>, cfg: Config, clocks: Clocks, i: nat, t: Token,
      at: Instant)
    requires IsRun(ss, es, cfg, clocks) && i < |ss| && ClocksFit(cfg, clocks)
    requires t in ss[i].tokens && ss[i].now <= at < t.expiresAt
    ensures Published(ss[i].keys, t.kid, at)
  {
    ReachableTokenOk(ss, es, cfg, clocks, i, t);
  }

  /** In the last state the key of an unexpired token is not published. */
  ghost predicate LosesKey(ss: seq<State>, t: Token, at: Instant)
    requires ss != []
  {
    var s := ss[|ss| - 1];
    t in s.tokens && s.now <= at < t.expiresAt && !Published(s.keys, t.kid, at)
  }

  /** Clocks that exceed the slack lose a key when its publication ends. */
  lemma SlackIsExact(cfg: Config, clocks: Clocks) returns (ss: seq<State>, es: seq<Event>, t: Token, at: Instant)
    requires clocks.lag + clocks.ahead > Slack(cfg)
    ensures IsRun(ss, es, cfg, clocks) && LosesKey(ss, t, at)
  {
    var commitAt := MaxAge(cfg) + clocks.lag;
    var first := Rotate(None, 0, 0, 0);
    var sign := Sign(commitAt + clocks.ahead, 0, commitAt);
    var second := Rotate(Some(0), MaxAge(cfg), 1, commitAt);
    var s0 := State(0, map[], {});
    var s1 := Apply(s0, first, cfg, clocks);
    var s2 := Apply(s1, sign, cfg, clocks);
    var s3 := Apply(s2, second, cfg, clocks);
    ss, es := [s0, s1, s2, s3], [first, sign, second];
    t := Token(0, commitAt + clocks.ahead + TokenLifetime(cfg));
    var until := MaxAge(cfg) + PublicationWindow(cfg);
    at := if until < commitAt then commitAt else until;
  }

  /** Clocks that exceed how long a key is kept lose it at the next rotation. */
  lemma KeptForIsExact(cfg: Config, clocks: Clocks) returns (ss: seq<State>, es: seq<Event>, t: Token, at: Instant)
    requires clocks.lag + 2 * clocks.ahead > KeptFor(cfg) - TokenLifetime(cfg)
    ensures IsRun(ss, es, cfg, clocks) && LosesKey(ss, t, at)
  {
    var commitAt := MaxAge(cfg) + clocks.lag;
    var first := Rotate(None, 0, 0, 0);
    var sign := Sign(commitAt + clocks.ahead, 0, commitAt);
    var second := Rotate(Some(0), MaxAge(cfg), 1, commitAt);
    var stamp := MaxAge(cfg) + KeptFor(cfg);
    at := if stamp - clocks.ahead < commitAt then commitAt else stamp - clocks.ahead;
    var third := Rotate(Some(1), stamp, 2, at);
    var s0 := State(0, map[], {});
    var s1 := Apply(s0, first, cfg, clocks);
    var s2 := Apply(s1, sign, cfg, clocks);
    var s3 := Apply(s2, second, cfg, clocks);
    var s4 := Apply(s3, third, cfg, clocks);
    ss, es := [s0, s1, s2, s3, s4], [first, sign, second, third];
    t := Token(0, commitAt + clocks.ahead + TokenLifetime(cfg));
  }

  /** No run under these clocks loses the key of an unexpired token. */
  ghost predicate NeverLosesKey(cfg: Config, clocks: Clocks) {
    forall ss: seq<State>, es: seq<Event>, t: Token, at: Instant :: IsRun(ss, es, cfg, clocks) ==> !LosesKey(ss, t, at)
  }

  /** The exact condition, for every configuration, under which rotation keeps all tokens verifiable. */
  lemma VerifiableIffClocksFit(cfg: Config, clocks: Clocks)
    ensures NeverLosesKey(cfg, clocks) <==> ClocksFit(cfg, clocks)
  {
    if ClocksFit(cfg, clocks) {
      forall ss: seq<State>, es: seq<Event>, t: Token, at: Instant | IsRun(ss, es, cfg, clocks)
          ensures !LosesKey(ss, t, at) {
        if LosesKey(ss, t, at) {
          UnexpiredTokensAreVerifiable(ss, es, cfg, clocks, |ss| - 1, t, at);
        }
      }
    } else if clocks.lag + clocks.ahead > Slack(cfg) {
      var ss, es, t, at := SlackIsExact(cfg, clocks);
    } else {
      var ss, es, t, at := KeptForIsExact(cfg, clocks);
    }
  }
}
