/** Truncation of text to a byte limit (internal/api/external_integrations.go), over UTF-8 as in RFC 3629. */
module Truncation {
  type Byte = b: int | 0 <= b < 256

  type Text = seq<Byte>

  predicate Tail(b: Byte) {
    0x80 <= b <= 0xBF
  }

  /** The length of the well-formed character at the front, or zero when there is none. */
  function FirstLength(s: Text): (n: nat)
    ensures n <= 4 && n <= |s|
  {
    if s == [] then 0
    else if s[0] <= 0x7F then 1
    else if 0xC2 <= s[0] <= 0xDF && |s| >= 2 && Tail(s[1]) then 2
    else if |s| >= 3 && Tail(s[1]) && Tail(s[2])
            && (|| (s[0] == 0xE0 && s[1] >= 0xA0)
                || 0xE1 <= s[0] <= 0xEC
                || (s[0] == 0xED && s[1] <= 0x9F)
                || 0xEE <= s[0] <= 0xEF) then 3
    else if |s| >= 4 && Tail(s[1]) && Tail(s[2]) && Tail(s[3])
            && (|| (s[0] == 0xF0 && s[1] >= 0x90)
                || 0xF1 <= s[0] <= 0xF3
                || (s[0] == 0xF4 && s[1] <= 0x8F)) then 4
    else 0
  }

  predicate Valid(s: Text) {
    s == [] || (FirstLength(s) > 0 && Valid(s[FirstLength(s)..]))
  }

  /** A cut inside the first character leaves nothing well-formed; a cut after it leaves it alone. */
  lemma CutFirst(s: Text, n: nat)
    requires n <= |s| && FirstLength(s) > 0
    ensures n >= FirstLength(s) ==> FirstLength(s[..n]) == FirstLength(s)
    ensures n < FirstLength(s) ==> FirstLength(s[..n]) == 0
  {
  }

  /** Some valid prefix ends at most three bytes before any cut of a valid text. */
  lemma {:induction false} ValidPrefixNear(s: Text, n: nat) returns (k: nat)
    requires Valid(s) && n <= |s|
    ensures k <= n <= k + 3 && Valid(s[..k])
  {
    var first := FirstLength(s);
    if n == 0 || n < first {
      return 0;
    }
    var rest := ValidPrefixNear(s[first..], n - first);
    k := first + rest;
    CutFirst(s, k);
    assert s[..k][first..] == s[first..][..rest];
  }

  method TruncateUtf8(value: Text, maximum: nat) returns (r: Text)
    ensures |value| <= maximum ==> r == value
    ensures |value| > maximum ==>
              && r <= value && |r| <= maximum && Valid(r)
              && forall k | |r| < k <= maximum :: !Valid(value[..k])
    ensures |value| > maximum && Valid(value) ==> |r| >= maximum - 3
  {
    if |value| <= maximum {
      return value;
    }
    r := value[..maximum];
    while !Valid(r)
      invariant |r| <= maximum && r == value[..|r|]
      invariant forall k | |r| < k <= maximum :: !Valid(value[..k])
      decreases |r|
    {
      r := r[..|r| - 1];
    }
    if Valid(value) {
      ghost var k := ValidPrefixNear(value, maximum);
    }
  }

  // ----- characters -----

  type Character = c: int | (0 <= c <= 0xD7FF) || (0xE000 <= c <= 0x10FFFF)

  /** The encoding table of section 3 of RFC 3629. */
  function Encode(c: Character): Text {
    if c <= 0x7F then [c]
    else if c <= 0x7FF then [0xC0 + c / 64, 0x80 + c % 64]
    else if c <= 0xFFFF then [0xE0 + c / 4096, 0x80 + c / 64 % 64, 0x80 + c % 64]
    else [0xF0 + c / 262144, 0x80 + c / 4096 % 64, 0x80 + c / 64 % 64, 0x80 + c % 64]
  }

  function EncodeAll(cs: seq<Character>): Text {
    if cs == [] then [] else Encode(cs[0]) + EncodeAll(cs[1..])
  }

  lemma EncodeIsOneCharacter(c: Character, rest: Text)
    ensures FirstLength(Encode(c) + rest) == |Encode(c)| > 0
  {
    var s := Encode(c) + rest;
    assert forall i | 0 <= i < |Encode(c)| :: s[i] == Encode(c)[i];
  }

  lemma {:induction false} EncodingsAreValid(cs: seq<Character>)
    ensures Valid(EncodeAll(cs))
  {
    if cs != [] {
      EncodingsAreValid(cs[1..]);
      EncodeIsOneCharacter(cs[0], EncodeAll(cs[1..]));
      assert EncodeAll(cs)[|Encode(cs[0])|..] == EncodeAll(cs[1..]);
    }
  }

  /** The six payload bits of a tail byte appended to a number. */
  function Append(high: int, tail: int): int {
    high * 64 + (tail - 0x80)
  }

  lemma AppendSplits(high: int, tail: Byte)
    requires Tail(tail)
    ensures Append(high, tail) / 64 == high && 0x80 + Append(high, tail) % 64 == tail
  {
  }

  lemma TwoBytes(a: Byte, b: Byte)
    requires FirstLength([a, b]) == 2
    ensures var c := Append(a - 0xC0, b); 0 <= c <= 0xD7FF && Encode(c) == [a, b]
  {
    AppendSplits(a - 0xC0, b);
  }

  lemma ThreeBytes(a: Byte, b: Byte, d: Byte)
    requires FirstLength([a, b, d]) == 3
    ensures var c := Append(Append(a - 0xE0, b), d);
            (0 <= c <= 0xD7FF || 0xE000 <= c <= 0xFFFF) && Encode(c) == [a, b, d]
  {
    var h := Append(a - 0xE0, b);
    AppendSplits(a - 0xE0, b);
    AppendSplits(h, d);
    assert Append(h, d) / 4096 == h / 64;
  }

  lemma FourBytes(a: Byte, b: Byte, d: Byte, e: Byte)
    requires FirstLength([a, b, d, e]) == 4
    ensures var c := Append(Append(Append(a - 0xF0, b), d), e);
            0xE000 <= c <= 0x10FFFF && Encode(c) == [a, b, d, e]
  {
    var g := Append(a - 0xF0, b);
    var h := Append(g, d);
    AppendSplits(a - 0xF0, b);
    AppendSplits(g, d);
    AppendSplits(h, e);
    assert Append(h, e) / 4096 == g && Append(h, e) / 262144 == g / 64;
  }

  /** The front of a text encodes some character. */
  lemma FrontIsEncoded(s: Text) returns (c: Character)
    requires FirstLength(s) > 0
    ensures Encode(c) == s[..FirstLength(s)]
  {
    hide Append, Encode;
    var n := FirstLength(s);
    CutFirst(s, n);
    if n == 1 {
      OneByte(s[0]);
      assert s[..1] == [s[0]];
      c := s[0];
    } else if n == 2 {
      assert s[..2] == [s[0], s[1]];
      TwoBytes(s[0], s[1]);
      c := Append(s[0] - 0xC0, s[1]);
    } else if n == 3 {
      assert s[..3] == [s[0], s[1], s[2]];
      ThreeBytes(s[0], s[1], s[2]);
      c := Append(Append(s[0] - 0xE0, s[1]), s[2]);
    } else {
      assert s[..4] == [s[0], s[1], s[2], s[3]];
      FourBytes(s[0], s[1], s[2], s[3]);
      c := Append(Append(Append(s[0] - 0xF0, s[1]), s[2]), s[3]);
    }
  }

  lemma OneByte(a: Byte)
    requires a <= 0x7F
    ensures Encode(a) == [a]
  {
  }

  /** Every valid text is the encoding of some characters. */
  lemma {:induction false} ValidIsEncoded(s: Text) returns (cs: seq<Character>)
    requires Valid(s)
    ensures EncodeAll(cs) == s
  {
    if s == [] {
      return [];
    }
    var rest := ValidIsEncoded(s[FirstLength(s)..]);
    var c := FrontIsEncoded(s);
    cs := [c] + rest;
    assert s == s[..FirstLength(s)] + s[FirstLength(s)..];
  }

  /** The validity test accepts exactly the texts that RFC 3629 encodes. */
  lemma ValidIffEncoded(s: Text)
    ensures Valid(s) <==> exists cs: seq<Character> :: EncodeAll(cs) == s
  {
    if Valid(s) {
      var cs := ValidIsEncoded(s);
    }
    forall cs: seq<Character> | EncodeAll(cs) == s ensures Valid(s) {
      EncodingsAreValid(cs);
    }
  }

  /** A valid prefix of an encoded text ends between two characters. */
  lemma {:induction false} ValidPrefixIsWholeCharacters(cs: seq<Character>, n: nat) returns (k: nat)
    requires n <= |EncodeAll(cs)| && Valid(EncodeAll(cs)[..n])
    ensures k <= |cs| && EncodeAll(cs)[..n] == EncodeAll(cs[..k])
  {
    hide Encode, FirstLength;
    if n == 0 {
      return 0;
    }
    var s, first := EncodeAll(cs), |Encode(cs[0])|;
    EncodeIsOneCharacter(cs[0], EncodeAll(cs[1..]));
    CutFirst(s, n);
    assert s[first..] == EncodeAll(cs[1..]);
    assert s[..n][first..] == s[first..][..n - first];
    var rest := ValidPrefixIsWholeCharacters(cs[1..], n - first);
    k := rest + 1;
    assert cs[..k][1..] == cs[1..][..rest];
    assert s[..n] == Encode(cs[0]) + s[first..][..n - first];
  }

  /** No character is cut: truncating encoded characters yields the encoding of the longest prefix that fits. */
  lemma TruncationKeepsWholeCharacters(cs: seq<Character>, maximum: nat, r: Text)
    requires |EncodeAll(cs)| > maximum
    requires r <= EncodeAll(cs) && |r| <= maximum && Valid(r)
    requires forall k | |r| < k <= maximum :: !Valid(EncodeAll(cs)[..k])
    ensures exists k | 0 <= k < |cs| :: r == EncodeAll(cs[..k]) && |EncodeAll(cs[..k + 1])| > maximum
  {
    hide Valid, EncodeAll;
    var s := EncodeAll(cs);
    assert r == s[..|r|];
    var k := ValidPrefixIsWholeCharacters(cs, |r|);
    assert cs[..|cs|] == cs;
    assert k < |cs|;
    EncodePrefix(cs, k + 1);
    EncodeStep(cs, k);
    EncodingsAreValid(cs[..k + 1]);
    var next := EncodeAll(cs[..k + 1]);
    assert next == s[..|next|];
  }

  lemma {:induction false} EncodePrefix(cs: seq<Character>, k: nat)
    requires k <= |cs|
    ensures EncodeAll(cs[..k]) <= EncodeAll(cs)
  {
    if k > 0 {
      EncodePrefix(cs[1..], k - 1);
      assert cs[..k][1..] == cs[1..][..k - 1];
    }
  }

  lemma {:induction false} EncodeStep(cs: seq<Character>, k: nat)
    requires k < |cs|
    ensures |EncodeAll(cs[..k + 1])| > |EncodeAll(cs[..k])|
  {
    if k == 0 {
      assert cs[..1][1..] == [];
    } else {
      EncodeStep(cs[1..], k - 1);
      assert cs[..k + 1][1..] == cs[1..][..k];
      assert cs[..k][1..] == cs[1..][..k - 1];
    }
  }
}
