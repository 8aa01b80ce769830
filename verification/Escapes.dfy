/** The token-based escape of JSON-special characters, and its inverse. */
module Escapes {

  /** The seven special characters, in the order in which they are replaced. */
  const SPECIALS: seq<char> := ['"', '\n', '\U{0008}', '\U{000C}', '\r', '\t', '\\']

  /** The marker word that stands for each of them. */
  const MARKERS: seq<string> := [
    "FLOWISE_DOUBLE_QUOTE",
    "FLOWISE_NEWLINE",
    "FLOWISE_BACKSPACE",
    "FLOWISE_FORM_FEED",
    "FLOWISE_CARRIAGE_RETURN",
    "FLOWISE_TAB",
    "FLOWISE_BACKSLASH"
  ]

  /** Replaces every occurrence of `pat`, found from the left and not overlapping. */
  function ReplaceAll(s: string, pat: string, rep: string): string
    requires pat != ""
    decreases |s|
  {
    if s == "" then ""
    else if pat <= s then rep + ReplaceAll(s[|pat|..], pat, rep)
    else [s[0]] + ReplaceAll(s[1..], pat, rep)
  }

  /** The replacements from the k-th pair on. */
  function EscapeFrom(s: string, k: nat): string
    requires k <= 7
    decreases 7 - k
  {
    if k == 7 then s else EscapeFrom(ReplaceAll(s, [SPECIALS[k]], MARKERS[k]), k + 1)
  }

  function UnescapeFrom(s: string, k: nat): string
    requires k <= 7
    decreases 7 - k
  {
    if k == 7 then s else
      assert MARKERS[k] != "";
      UnescapeFrom(ReplaceAll(s, MARKERS[k], [SPECIALS[k]]), k + 1)
  }

  function HandleEscapes(s: string, reverse: bool): string {
    if reverse then UnescapeFrom(s, 0) else EscapeFrom(s, 0)
  }

  /** One string, reassigned once for each of the seven pairs. */
  method HandleEscapesJSONParse(input: string, reverse: bool) returns (r: string)
    ensures r == HandleEscapes(input, reverse)
  {
    r := input;
    for k := 0 to |MARKERS|
      invariant HandleEscapes(input, reverse) == if reverse then UnescapeFrom(r, k) else EscapeFrom(r, k)
    {
      assert MARKERS[k] != "";
      r := if reverse then ReplaceAll(r, MARKERS[k], [SPECIALS[k]]) else ReplaceAll(r, [SPECIALS[k]], MARKERS[k]);
    }
  }

  // ---- what escaping computes: one code per character ----

  /** The index of a special character, or 7. */
  function IndexOf(c: char): (k: nat)
    ensures k <= 7
    ensures k < 7 ==> SPECIALS[k] == c
    ensures forall i | 0 <= i < k :: SPECIALS[i] != c
  {
    if c == '"' then 0 else if c == '\n' then 1 else if c == '\U{0008}' then 2 else if c == '\U{000C}' then 3
    else if c == '\r' then 4 else if c == '\t' then 5 else if c == '\\' then 6 else 7
  }

  /** The text with the specials of index `lo` up to (not including) `hi` written as markers. */
  function Encode(s: string, lo: nat, hi: nat): string {
    if s == "" then "" else Code(s[0], lo, hi) + Encode(s[1..], lo, hi)
  }

  function Code(c: char, lo: nat, hi: nat): string {
    var k := IndexOf(c);
    if k < 7 && lo <= k < hi then MARKERS[k] else [c]
  }

  /** The seven markers are words over capital letters and underscores, so they hold no special. */
  predicate IsWord(m: string) { forall i | 0 <= i < |m| :: 'A' <= m[i] <= 'Z' || m[i] == '_' }

  lemma MarkersAreWords(k: nat)
    requires k < 7
    ensures IsWord(MARKERS[k]) && |MARKERS[k]| > 8
  {
  }

  lemma {:induction false} ReplaceSingleInWord(w: string, rest: string, c: char, rep: string)
    requires IsWord(w) && IndexOf(c) < 7
    ensures ReplaceAll(w + rest, [c], rep) == w + ReplaceAll(rest, [c], rep)
    decreases |w|
  {
    if w == "" {
      assert w + rest == rest;
    } else {
      assert (w + rest)[1..] == w[1..] + rest && (w + rest)[0] == w[0];
      ReplaceSingleInWord(w[1..], rest, c, rep);
    }
  }

  lemma {:induction false} EscapeOneMore(s: string, k: nat)
    requires k < 7
    ensures ReplaceAll(Encode(s, 0, k), [SPECIALS[k]], MARKERS[k]) == Encode(s, 0, k + 1)
    decreases |s|
  {
    if s != "" {
      var rest := Encode(s[1..], 0, k);
      var code := Code(s[0], 0, k);
      EscapeOneMore(s[1..], k);
      if IndexOf(s[0]) < k {
        MarkersAreWords(IndexOf(s[0]));
        ReplaceSingleInWord(code, rest, SPECIALS[k], MARKERS[k]);
      } else {
        assert (code + rest)[1..] == rest;
        assert [SPECIALS[k]] <= code + rest <==> s[0] == SPECIALS[k];
      }
    }
  }

  lemma {:induction false} EscapeEncodes(s: string, k: nat)
    requires k <= 7
    ensures EscapeFrom(Encode(s, 0, k), k) == Encode(s, 0, 7)
    decreases 7 - k
  {
    if k < 7 {
      EscapeOneMore(s, k);
      EscapeEncodes(s, k + 1);
    }
  }

  lemma EncodeNothing(s: string, k: nat)
    ensures Encode(s, k, k) == s
  {
  }

  /** Seven passes over the text are one pass that codes each character on its own. */
  lemma EscapeIsEncode(s: string)
    ensures HandleEscapes(s, false) == Encode(s, 0, 7)
  {
    EncodeNothing(s, 0);
    EscapeEncodes(s, 0);
  }

  lemma {:induction false} EncodeHasNoSpecials(s: string, i: nat)
    requires i < |Encode(s, 0, 7)|
    ensures IndexOf(Encode(s, 0, 7)[i]) == 7
    decreases |s|
  {
    if s != "" {
      var code := Code(s[0], 0, 7);
      if i < |code| {
        if IndexOf(s[0]) < 7 { MarkersAreWords(IndexOf(s[0])); }
      } else {
        EncodeHasNoSpecials(s[1..], i - |code|);
      }
    }
  }

  lemma EscapedHasNoSpecials(s: string)
    ensures forall i | 0 <= i < |HandleEscapes(s, false)| :: HandleEscapes(s, false)[i] !in SPECIALS
  {
    EscapeIsEncode(s);
    forall i | 0 <= i < |Encode(s, 0, 7)| ensures Encode(s, 0, 7)[i] !in SPECIALS {
      EncodeHasNoSpecials(s, i);
    }
  }

  // ---- markers cannot overlap ----

  predicate Occurs(s: string, m: string)
    decreases |s|
  {
    m <= s || (s != "" && Occurs(s[1..], m))
  }

  predicate HasMarker(s: string) { exists k | 0 <= k < 7 :: Occurs(s, MARKERS[k]) }

  /** No position of `w` could be the start of a marker, whatever follows `w`. */
  predicate Unstartable(w: string) {
    forall o | 0 <= o < |w| :: w[o] != 'F' || (o + 1 < |w| && w[o + 1] != 'L')
  }

  /** Every marker starts with FL, and no later position could be the start of one. */
  lemma MarkerShape(k: nat)
    requires k < 7
    ensures |MARKERS[k]| > 8 && MARKERS[k][0] == 'F' && MARKERS[k][1] == 'L'
    ensures Unstartable(MARKERS[k][1..])
  {
    var m := MARKERS[k];
    forall o | 1 <= o < |m| ensures m[o] != 'F' || (o + 1 < |m| && m[o + 1] != 'L') {}
  }

  /** Two different markers differ at their ninth or fourteenth letter. */
  lemma MarkersDiffer(i: nat, k: nat) returns (d: nat)
    requires i < 7 && k < 7 && i != k
    ensures d < |MARKERS[i]| && d < |MARKERS[k]| && MARKERS[i][d] != MARKERS[k][d]
  {
    d := if MARKERS[i][8] != MARKERS[k][8] then 8 else 13;
  }

  /** Unstartable text found in front of coded text was already in front of the text. */
  lemma {:induction false} PrefixWasThere(u: string, s: string, k: nat)
    requires Unstartable(u) && u <= Encode(s, k, 7)
    ensures u <= s
    decreases |s|
  {
    if u != "" && s != "" {
      var i := IndexOf(s[0]);
      var e := Encode(s, k, 7);
      assert u[0] == e[0] && (|u| > 1 ==> u[1] == e[1]);
      if i < 7 && k <= i { MarkerShape(i); }
      assert e == [s[0]] + Encode(s[1..], k, 7);
      assert e[1..] == Encode(s[1..], k, 7);
      PrefixWasThere(u[1..], s[1..], k);
      assert u == [u[0]] + u[1..] && s == [s[0]] + s[1..];
    }
  }

  /** Replacing a marker walks over unstartable text without touching it. */
  lemma {:induction false} PassUnstartable(w: string, m: string, rest: string, rep: string)
    requires Unstartable(w) && |m| > 1 && m[0] == 'F' && m[1] == 'L'
    ensures ReplaceAll(w + rest, m, rep) == w + ReplaceAll(rest, m, rep)
    decreases |w|
  {
    var t := w + rest;
    if w == "" {
      assert t == rest;
    } else {
      assert t[1..] == w[1..] + rest && t[0] == w[0];
      assert |w| > 1 ==> t[1] == w[1];
      PassUnstartable(w[1..], m, rest, rep);
    }
  }

  /** The replacement of marker k walks over the code of another special. */
  lemma PassOtherMarker(i: nat, k: nat, rest: string, rep: string)
    requires i < 7 && k < 7 && i != k
    ensures MARKERS[k] != ""
    ensures ReplaceAll(MARKERS[i] + rest, MARKERS[k], rep) == MARKERS[i] + ReplaceAll(rest, MARKERS[k], rep)
  {
    MarkerShape(i);
    MarkerShape(k);
    var d := MarkersDiffer(i, k);
    PassWord(MARKERS[i], MARKERS[k], d, rest, rep);
  }

  lemma PassWord(w: string, m: string, d: nat, rest: string, rep: string)
    requires |w| > 1 && Unstartable(w[1..]) && |m| > 1 && m[0] == 'F' && m[1] == 'L'
    requires d < |w| && d < |m| && w[d] != m[d]
    ensures ReplaceAll(w + rest, m, rep) == w + ReplaceAll(rest, m, rep)
  {
    var t := w + rest;
    assert t[d] == w[d];
    assert t[1..] == w[1..] + rest && t[0] == w[0];
    PassUnstartable(w[1..], m, rest, rep);
    var q := ReplaceAll(rest, m, rep);
    assert w + q == [w[0]] + (w[1..] + q);
  }

  /** A marker that starts at an uncoded character of the coded text was already in the text. */
  lemma HeadWasThere(k: nat, s: string, j: nat)
    requires k < 7 && s != "" && Code(s[0], j, 7) == [s[0]]
    requires MARKERS[k] <= Encode(s, j, 7)
    ensures MARKERS[k] <= s
  {
    MarkerShape(k);
    var m, e := MARKERS[k], Encode(s, j, 7);
    assert e[1..] == Encode(s[1..], j, 7) && m[1..] <= e[1..];
    PrefixWasThere(m[1..], s[1..], j);
    assert m == [m[0]] + m[1..] && s == [s[0]] + s[1..];
  }

  lemma {:induction false} UnescapeOne(s: string, k: nat)
    requires k < 7 && !HasMarker(s)
    ensures MARKERS[k] != "" && ReplaceAll(Encode(s, k, 7), MARKERS[k], [SPECIALS[k]]) == Encode(s, k + 1, 7)
    decreases |s|
  {
    MarkersAreWords(k);
    if s != "" {
      var i := IndexOf(s[0]);
      var rest := Encode(s[1..], k, 7);
      assert !HasMarker(s[1..]) by {
        forall j | 0 <= j < 7 ensures !Occurs(s[1..], MARKERS[j]) { assert !Occurs(s, MARKERS[j]); }
      }
      UnescapeOne(s[1..], k);
      var t := Encode(s, k, 7);
      if i == k {
        assert t == MARKERS[k] + rest && t[|MARKERS[k]|..] == rest;
      } else if k < i < 7 {
        PassOtherMarker(i, k, rest, [SPECIALS[k]]);
      } else {
        assert t == [s[0]] + rest && t[1..] == rest;
        assert !Occurs(s, MARKERS[k]);
        if MARKERS[k] <= t { HeadWasThere(k, s, k); }
      }
    }
  }

  lemma {:induction false} UnescapeDecodes(s: string, k: nat)
    requires k <= 7 && !HasMarker(s)
    ensures UnescapeFrom(Encode(s, k, 7), k) == s
    decreases 7 - k
  {
    if k == 7 {
      EncodeNothing(s, 7);
    } else {
      UnescapeOne(s, k);
      UnescapeDecodes(s, k + 1);
    }
  }

  // ---- unescaped text holds no marker ----

  /** Replacing a marker by a special character puts no marker in front of the text. */
  lemma {:induction false} PrefixSurvives(t: string, pat: string, c: char, n: string)
    requires pat != "" && c !in n && n <= ReplaceAll(t, pat, [c])
    ensures n <= t
    decreases |t|
  {
    if n != "" && t != "" {
      var r := ReplaceAll(t, pat, [c]);
      assert n[0] == r[0];
      assert !(pat <= t);
      assert n[1..] <= r[1..] == ReplaceAll(t[1..], pat, [c]);
      PrefixSurvives(t[1..], pat, c, n[1..]);
      assert n == [n[0]] + n[1..] && t == [t[0]] + t[1..];
    }
  }

  lemma {:induction false} ReplaceCreatesNone(t: string, pat: string, c: char, n: string)
    requires pat != "" && n != "" && c !in n && (n == pat || !Occurs(t, n))
    ensures !Occurs(ReplaceAll(t, pat, [c]), n)
    decreases |t|
  {
    if t != "" {
      var r := ReplaceAll(t, pat, [c]);
      if n <= r { PrefixSurvives(t, pat, c, n); }
      if pat <= t {
        assert r[0] == c && n[0] in n;
        assert r[1..] == ReplaceAll(t[|pat|..], pat, [c]);
        if n != pat { SuffixHasNone(t, n, |pat|); }
        ReplaceCreatesNone(t[|pat|..], pat, c, n);
      } else {
        assert r[1..] == ReplaceAll(t[1..], pat, [c]);
        ReplaceCreatesNone(t[1..], pat, c, n);
      }
    }
  }

  lemma {:induction false} SuffixHasNone(t: string, n: string, i: nat)
    requires i <= |t| && !Occurs(t, n)
    ensures !Occurs(t[i..], n)
  {
    if i == 0 {
      assert t[0..] == t;
    } else {
      SuffixHasNone(t[1..], n, i - 1);
      assert t[1..][i - 1..] == t[i..];
    }
  }

  lemma {:induction false} UnescapeRemoves(s: string, k: nat)
    requires k <= 7 && forall j | 0 <= j < k :: !Occurs(s, MARKERS[j])
    ensures !HasMarker(UnescapeFrom(s, k))
    decreases 7 - k
  {
    if k < 7 {
      MarkersAreWords(k);
      var t := ReplaceAll(s, MARKERS[k], [SPECIALS[k]]);
      forall j | 0 <= j < k + 1 ensures !Occurs(t, MARKERS[j]) {
        MarkersAreWords(j);
        ReplaceCreatesNone(s, MARKERS[k], SPECIALS[k], MARKERS[j]);
      }
      UnescapeRemoves(t, k + 1);
    }
  }

  /** Unescaping undoes escaping exactly on the texts that hold none of the seven marker words. */
  lemma RoundTrip(s: string)
    ensures HandleEscapes(HandleEscapes(s, false), true) == s <==> !HasMarker(s)
  {
    EscapeIsEncode(s);
    if HasMarker(s) {
      UnescapeRemoves(Encode(s, 0, 7), 0);
    } else {
      UnescapeDecodes(s, 0);
    }
  }

  // ---- a second pass changes nothing ----

  lemma {:induction false} EncodeWithoutSpecials(s: string)
    requires forall i | 0 <= i < |s| :: IndexOf(s[i]) == 7
    ensures Encode(s, 0, 7) == s
    decreases |s|
  {
    if s != "" { EncodeWithoutSpecials(s[1..]); }
  }

  lemma {:induction false} ReplaceAbsent(s: string, pat: string, rep: string)
    requires pat != "" && !Occurs(s, pat)
    ensures ReplaceAll(s, pat, rep) == s
    decreases |s|
  {
    if s != "" { ReplaceAbsent(s[1..], pat, rep); }
  }

  lemma {:induction false} UnescapeWithoutMarkers(s: string, k: nat)
    requires k <= 7 && !HasMarker(s)
    ensures UnescapeFrom(s, k) == s
    decreases 7 - k
  {
    if k < 7 {
      MarkerShape(k);
      ReplaceAbsent(s, MARKERS[k], [SPECIALS[k]]);
      UnescapeWithoutMarkers(s, k + 1);
    }
  }

  /** Escaping twice is escaping once, and unescaping twice is unescaping once. */
  lemma HandleTwice(s: string, reverse: bool)
    ensures HandleEscapes(HandleEscapes(s, reverse), reverse) == HandleEscapes(s, reverse)
  {
    if reverse {
      UnescapeRemoves(s, 0);
      UnescapeWithoutMarkers(HandleEscapes(s, true), 0);
    } else {
      EscapeIsEncode(s);
      forall i | 0 <= i < |Encode(s, 0, 7)| ensures IndexOf(Encode(s, 0, 7)[i]) == 7 {
        EncodeHasNoSpecials(s, i);
      }
      EncodeWithoutSpecials(Encode(s, 0, 7));
      EscapeIsEncode(Encode(s, 0, 7));
    }
  }

  // ---- nested values ----

  datatype Value =
    | Text(s: string)
    | Scalar(n: int)
    | Null
    | Items(items: seq<Value>)
    | Record(fields: seq<Field>)

  datatype Field = Field(name: string, value: Value)

  /** Strings are handled, objects and arrays are walked, everything else is returned unchanged. */
  function HandleEscapeCharacters(v: Value, reverse: bool): Value
    decreases v
  {
    match v
    case Text(s) => Text(HandleEscapes(s, reverse))
    case Items(items) =>
      Items(seq(|items|, i requires 0 <= i < |items| => HandleEscapeCharacters(items[i], reverse)))
    case Record(fields) =>
      Record(seq(|fields|, i requires 0 <= i < |fields| =>
        Field(fields[i].name, HandleEscapeCharacters(fields[i].value, reverse))))
    case _ => v
  }

  /** Some string inside the value holds a marker word; field names do not count. */
  predicate MarkerInside(v: Value)
    decreases v
  {
    match v
    case Text(s) => HasMarker(s)
    case Items(items) => exists i | 0 <= i < |items| :: MarkerInside(items[i])
    case Record(fields) => exists i | 0 <= i < |fields| :: MarkerInside(fields[i].value)
    case _ => false
  }

  /** The round trip on nested values: back to the same value exactly when no string holds a marker. */
  lemma {:induction false} ValueRoundTrip(v: Value)
    ensures HandleEscapeCharacters(HandleEscapeCharacters(v, false), true) == v <==> !MarkerInside(v)
    decreases v
  {
    var w := HandleEscapeCharacters(HandleEscapeCharacters(v, false), true);
    match v
    case Text(s) => RoundTrip(s);
    case Items(items) =>
      forall i | 0 <= i < |items| ensures w.items[i] == items[i] <==> !MarkerInside(items[i]) {
        ValueRoundTrip(items[i]);
      }
      assert w == v <==> forall i | 0 <= i < |items| :: w.items[i] == items[i];
    case Record(fields) =>
      forall i | 0 <= i < |fields| ensures w.fields[i] == fields[i] <==> !MarkerInside(fields[i].value) {
        ValueRoundTrip(fields[i].value);
      }
      assert w == v <==> forall i | 0 <= i < |fields| :: w.fields[i] == fields[i];
    case _ =>
  }

  /** An object reached along two paths is handled twice, with the same result. */
  lemma {:induction false} ValueHandleTwice(v: Value, reverse: bool)
    ensures HandleEscapeCharacters(HandleEscapeCharacters(v, reverse), reverse) == HandleEscapeCharacters(v, reverse)
    decreases v
  {
    match v
    case Text(s) => HandleTwice(s, reverse);
    case Items(items) =>
      forall i | 0 <= i < |items| { ValueHandleTwice(items[i], reverse); }
    case Record(fields) =>
      forall i | 0 <= i < |fields| { ValueHandleTwice(fields[i].value, reverse); }
    case _ =>
  }
}
