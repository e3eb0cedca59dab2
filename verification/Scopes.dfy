/** How a requested scope string is read (internal/api/oauth_authorization.go), and that reading it again is stable. */
module Scopes {
  import opened Common
  import opened Strings

  const OPENID: string := "openid"
  const PROFILE: string := "profile"
  const EMAIL: string := "email"
  const OFFLINE: string := "offline_access"

  predicate IsOidc(v: string) {
    v == OPENID || v == PROFILE || v == EMAIL
  }

  predicate NameChar(c: char) {
    'a' <= c <= 'z' || '0' <= c <= '9' || c == '.' || c == '_' || c == ':' || c == '-'
  }

  /** The delegated scope pattern: a lowercase letter, then up to 119 more name characters. */
  predicate DelegatedName(v: string) {
    && 1 <= |v| <= 120
    && 'a' <= v[0] <= 'z'
    && forall i | 0 <= i < |v| :: NameChar(v[i])
  }

  /** White space as strings.Fields sees it. */
  predicate IsSpace(c: char) {
    || c == ' ' || '\t' <= c <= '\r' || c == '\U{0085}' || c == '\U{00A0}' || c == '\U{1680}'
    || '\U{2000}' <= c <= '\U{200A}' || c == '\U{2028}' || c == '\U{2029}' || c == '\U{202F}'
    || c == '\U{205F}' || c == '\U{3000}'
  }

  /** The words of `word + s`, where `word` is the part already read. */
  function Split(s: string, word: string): seq<string> {
    if s == [] then if word == [] then [] else [word]
    else if IsSpace(s[0]) then (if word == [] then [] else [word]) + Split(s[1..], [])
    else Split(s[1..], word + [s[0]])
  }

  function Fields(raw: string): seq<string> {
    Split(raw, [])
  }

  function Join(values: seq<string>): string {
    if values == [] then [] else if |values| == 1 then values[0] else values[0] + " " + Join(values[1..])
  }

  predicate IsWord(v: string) {
    v != [] && forall i | 0 <= i < |v| :: !IsSpace(v[i])
  }

  lemma {:induction false} SplitReadsWord(w: string, rest: string, word: string)
    requires forall i | 0 <= i < |w| :: !IsSpace(w[i])
    ensures Split(w + rest, word) == Split(rest, word + w)
  {
    if w == [] {
      assert w + rest == rest && word + w == word;
    } else {
      assert (w + rest)[1..] == w[1..] + rest;
      SplitReadsWord(w[1..], rest, word + [w[0]]);
      assert word + [w[0]] + w[1..] == word + w;
    }
  }

  /** Joining words with spaces and splitting again gives the words back. */
  lemma {:induction false} FieldsOfJoin(values: seq<string>)
    requires forall v | v in values :: IsWord(v)
    ensures Fields(Join(values)) == values
  {
    if values != [] {
      var first, rest := values[0], values[1..];
      assert IsWord(first);
      if rest == [] {
        assert first + [] == first && [] + first == first;
        SplitReadsWord(first, [], []);
      } else {
        var tail := " " + Join(rest);
        assert Join(values) == first + tail;
        SplitReadsWord(first, tail, []);
        assert [] + first == first && tail[0] == ' ' && tail[1..] == Join(rest);
        FieldsOfJoin(rest);
        assert Split(tail, first) == [first] + Split(tail[1..], []);
      }
      assert values == [first] + rest;
    }
  }

  predicate Acceptable(v: string) {
    IsOidc(v) || (DelegatedName(v) && v != OFFLINE)
  }

  predicate NoDuplicates(values: seq<string>) {
    forall i, j | 0 <= i < j < |values| :: values[i] != values[j]
  }

  predicate ValidRequest(values: seq<string>) {
    NoDuplicates(values) && (forall v | v in values :: Acceptable(v)) && OPENID in values
  }

  /** The scopes that are not OpenID Connect's own. */
  function Custom(values: seq<string>): (custom: seq<string>)
    ensures forall v :: v in custom <==> v in values && !IsOidc(v)
  {
    if values == [] then []
    else
      var before, v := Custom(values[..|values| - 1]), values[|values| - 1];
      if IsOidc(v) then before else before + [v]
  }

  datatype ScopeError = MissingOpenId | Duplicated(scope: string) | Unsupported(scope: string)

  /** All scopes and the delegated ones, both sorted; nothing when the request is refused. */
  function Normalize(raw: string): Option<(seq<string>, seq<string>)> {
    var values := Fields(raw);
    if ValidRequest(values) then Some((Sort(values, Itself), Sort(Custom(values), Itself))) else None
  }

  /** The loop over the words: refuses the first word that is repeated or not supported. */
  method ScanWords(values: seq<string>) returns (r: Result<seq<string>, ScopeError>)
    ensures r.Ok? ==> NoDuplicates(values) && (forall v | v in values :: Acceptable(v)) && r.value == Custom(values)
    ensures r.Err? ==>
              || (r.error.Duplicated? && r.error.scope in values && !NoDuplicates(values))
              || (r.error.Unsupported? && r.error.scope in values && !Acceptable(r.error.scope))
  {
    var seen: set<string> := {};
    var custom: seq<string> := [];
    for n := 0 to |values|
      invariant forall v :: v in seen <==> v in values[..n]
      invariant NoDuplicates(values[..n])
      invariant forall v | v in values[..n] :: Acceptable(v)
      invariant custom == Custom(values[..n])
    {
      var value := values[n];
      if value in seen {
        return Err(Duplicated(value));
      }
      assert values[..n + 1][..n] == values[..n] && values[..n + 1] == values[..n] + [value];
      if !IsOidc(value) {
        if !DelegatedName(value) || value == OFFLINE {
          return Err(Unsupported(value));
        }
        custom := custom + [value];
      }
      seen := seen + {value};
    }
    assert values[..|values|] == values;
    r := Ok(custom);
  }

  method NormalizeRequestedScopes(raw: string) returns (r: Result<(seq<string>, seq<string>), ScopeError>)
    ensures r.Ok? <==> Normalize(raw).Some?
    ensures r.Ok? ==> r.value == Normalize(raw).value
    ensures r.Err? && r.error.Duplicated? ==> r.error.scope in Fields(raw) && !NoDuplicates(Fields(raw))
    ensures r.Err? && r.error.Unsupported? ==> r.error.scope in Fields(raw) && !Acceptable(r.error.scope)
    ensures r.Err? && r.error.MissingOpenId? ==> OPENID !in Fields(raw)
  {
    var values := Fields(raw);
    if |values| == 0 {
      return Err(MissingOpenId);
    }
    var scanned := ScanWords(values);
    if scanned.Err? {
      return Err(scanned.error);
    }
    if OPENID !in values {
      return Err(MissingOpenId);
    }
    r := Ok((Sort(values, Itself), Sort(scanned.value, Itself)));
  }

  /** The shape of a stored scope list. */
  ghost predicate NormalForm(values: seq<string>) {
    SortedBy(values, Itself) && ValidRequest(values)
  }

  lemma NoDuplicatesIsMultiset(values: seq<string>)
    requires NoDuplicates(values)
    ensures forall v | v in values :: multiset(values)[v] == 1
  {
    if values != [] {
      var n := |values| - 1;
      NoDuplicatesIsMultiset(values[..n]);
      assert values == values[..n] + [values[n]];
    }
  }

  lemma {:induction false} MultisetHasNoDuplicates(values: seq<string>)
    requires forall v | v in values :: multiset(values)[v] == 1
    ensures NoDuplicates(values)
  {
    forall i, j | 0 <= i < j < |values| ensures values[i] != values[j] {
      assert values == values[..i] + [values[i]] + values[i + 1..j] + [values[j]] + values[j + 1..];
      assert values[i] == values[j] ==> multiset(values)[values[i]] >= 2;
    }
  }

  lemma NormalizeGivesNormalForm(raw: string)
    requires Normalize(raw).Some?
    ensures NormalForm(Normalize(raw).value.0)
    ensures forall v :: v in Normalize(raw).value.0 <==> v in Fields(raw)
    ensures forall v :: v in Normalize(raw).value.1 <==> v in Fields(raw) && !IsOidc(v)
  {
    var values := Fields(raw);
    var sorted, custom := Sort(values, Itself), Sort(Custom(values), Itself);
    SortElements(values, Itself);
    SortElements(Custom(values), Itself);
    SortSorted(values, Itself);
    SameMembers(sorted, values);
    SameMembers(custom, Custom(values));
    NoDuplicatesIsMultiset(values);
    MultisetHasNoDuplicates(sorted);
  }

  /**
   Every accepted word is one of three known ones or fits the delegated pattern, and offline_access is never
   accepted.
   */
  lemma AcceptedWords(raw: string, v: string)
    requires Normalize(raw).Some? && v in Fields(raw)
    ensures v != "offline_access"
    ensures v in {"openid", "profile", "email"}
            || (1 <= |v| <= 120 && 'a' <= v[0] <= 'z'
                && forall i | 0 <= i < |v| ::
                     'a' <= v[i] <= 'z' || '0' <= v[i] <= '9' || v[i] in {'.', '_', ':', '-'})
    ensures "openid" in Fields(raw)
  {
    if !IsOidc(v) {
      assert DelegatedName(v);
    }
  }

  lemma SameMembers(xs: seq<string>, ys: seq<string>)
    requires multiset(xs) == multiset(ys)
    ensures forall v :: v in xs <==> v in ys
  {
    forall v ensures v in xs <==> v in ys {
      assert v in xs <==> v in multiset(xs);
      assert v in ys <==> v in multiset(ys);
    }
  }

  lemma AcceptableIsWord(v: string)
    requires Acceptable(v)
    ensures IsWord(v)
  {
    if !IsOidc(v) {
      assert forall i | 0 <= i < |v| :: NameChar(v[i]);
    }
  }

  lemma {:induction false} CustomSorted(values: seq<string>)
    requires SortedBy(values, Itself)
    ensures SortedBy(Custom(values), Itself)
  {
    if values != [] {
      var n := |values| - 1;
      CustomSorted(values[..n]);
      var before := Custom(values[..n]);
      forall i | 0 <= i < |before| ensures AtMost(Itself(before[i]), Itself(values[n])) {
        assert before[i] in values[..n];
      }
    }
  }

  /** Round trip: re-joining and re-reading a stored scope list returns the very same list and delegated scopes. */
  lemma StoredScopesReadBackUnchanged(values: seq<string>)
    requires NormalForm(values)
    ensures Normalize(Join(values)) == Some((values, Custom(values)))
  {
    forall v | v in values ensures IsWord(v) {
      AcceptableIsWord(v);
    }
    FieldsOfJoin(values);
    SortFixed(values, Itself);
    CustomSorted(values);
    SortFixed(Custom(values), Itself);
  }
}
