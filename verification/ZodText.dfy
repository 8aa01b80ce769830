/** The string operations the schema parser is written with: trimming, splitting and small patterns. */
module ZodText {

  /** White space and line terminators, as trimming and the pattern for blanks see them. */
  predicate IsSpace(c: char) {
    || '\t' <= c <= '\r' || c == ' ' || c == '\U{00A0}' || c == '\U{1680}' || '\U{2000}' <= c <= '\U{200A}'
    || c == '\U{2028}' || c == '\U{2029}' || c == '\U{202F}' || c == '\U{205F}' || c == '\U{3000}' || c == '\U{FEFF}'
  }

  predicate IsLineBreak(c: char) { c == '\n' || c == '\r' || c == '\U{2028}' || c == '\U{2029}' }

  predicate IsWordChar(c: char) { 'a' <= c <= 'z' || 'A' <= c <= 'Z' || '0' <= c <= '9' || c == '_' }

  predicate IsDigit(c: char) { '0' <= c <= '9' }

  predicate Every(s: string, p: char -> bool) { forall i | 0 <= i < |s| :: p(s[i]) }

  /** Length of the longest prefix of white space. */
  function Blanks(s: string): (n: nat)
    ensures n <= |s| && (forall i | 0 <= i < n :: IsSpace(s[i])) && (n < |s| ==> !IsSpace(s[n]))
  {
    if s == "" || !IsSpace(s[0]) then 0 else Blanks(s[1..]) + 1
  }

  function TrimRight(s: string): (r: string)
    ensures r <= s && (r != "" ==> !IsSpace(r[|r| - 1]))
  {
    if s == "" || !IsSpace(s[|s| - 1]) then s else TrimRight(s[..|s| - 1])
  }

  function Trim(s: string): (r: string)
    ensures |r| <= |s|
  {
    TrimRight(s[Blanks(s)..])
  }

  /** Text that trimming leaves alone. */
  predicate Trimmed(s: string) { s != "" ==> !IsSpace(s[0]) && !IsSpace(s[|s| - 1]) }

  lemma {:induction false} BlanksOf(blank: string, s: string)
    requires Every(blank, IsSpace) && s != "" && !IsSpace(s[0])
    ensures Blanks(blank + s) == |blank|
    decreases |blank|
  {
    if blank == "" {
      assert blank + s == s;
    } else {
      assert (blank + s)[1..] == blank[1..] + s;
      BlanksOf(blank[1..], s);
    }
  }

  lemma TrimTrimmed(blank: string, s: string)
    requires Every(blank, IsSpace) && Trimmed(s) && s != ""
    ensures Trim(blank + s) == s
  {
    BlanksOf(blank, s);
    assert (blank + s)[|blank|..] == s;
  }

  lemma TrimIdentity(s: string)
    requires Trimmed(s)
    ensures Trim(s) == s
  {
    if s != "" {
      assert "" + s == s;
      TrimTrimmed("", s);
    }
  }

  /** Index of the first `c`, or the length of the text. */
  function Find(s: string, c: char): (n: nat)
    ensures n <= |s| && (n < |s| ==> s[n] == c) && forall i | 0 <= i < n :: s[i] != c
  {
    if s == "" || s[0] == c then 0 else Find(s[1..], c) + 1
  }

  lemma {:induction false} FindAbsent(s: string, c: char)
    requires c !in s
    ensures Find(s, c) == |s|
  {
    if s != "" { FindAbsent(s[1..], c); }
  }

  lemma FindAfter(a: string, c: char, b: string)
    requires c !in a
    ensures Find(a + [c] + b, c) == |a|
  {
    var s := a + [c] + b;
    assert s[|a|] == c;
    forall i | 0 <= i < |a| ensures s[i] != c { assert s[i] == a[i] && a[i] in a; }
  }

  /** The pieces between the separators; there is always at least one. */
  function Split(s: string, c: char): (r: seq<string>)
    ensures r != []
    decreases |s|
  {
    var n := Find(s, c);
    if n == |s| then [s] else [s[..n]] + Split(s[n + 1..], c)
  }

  function Join(parts: seq<string>, separator: string): string {
    if parts == [] then ""
    else if |parts| == 1 then parts[0]
    else parts[0] + separator + Join(parts[1..], separator)
  }

  /** Splitting undoes joining when no part holds the separator. */
  lemma {:induction false} SplitJoin(parts: seq<string>, c: char)
    requires parts != [] && forall i | 0 <= i < |parts| :: c !in parts[i]
    ensures Split(Join(parts, [c]), c) == parts
    decreases |parts|
  {
    var s := Join(parts, [c]);
    if |parts| == 1 {
      FindAbsent(s, c);
    } else {
      var rest := Join(parts[1..], [c]);
      FindAfter(parts[0], c, rest);
      assert s[..|parts[0]|] == parts[0] && s[|parts[0]| + 1..] == rest;
      SplitJoin(parts[1..], c);
    }
  }

  /** Length of the longest prefix of word characters. */
  function WordLength(s: string): (n: nat)
    ensures n <= |s| && Every(s[..n], IsWordChar) && (n < |s| ==> !IsWordChar(s[n]))
  {
    if s == "" || !IsWordChar(s[0]) then 0
    else
      var n := WordLength(s[1..]);
      assert s[..n + 1] == [s[0]] + s[1..][..n];
      n + 1
  }

  lemma {:induction false} WordLengthOf(w: string, rest: string)
    requires Every(w, IsWordChar) && (rest != "" ==> !IsWordChar(rest[0]))
    ensures WordLength(w + rest) == |w|
    decreases |w|
  {
    if w == "" {
      assert w + rest == rest;
    } else {
      assert (w + rest)[1..] == w[1..] + rest;
      WordLengthOf(w[1..], rest);
    }
  }

  // ---- numbers ----

  /** `parseInt` on decimal digits. */
  function ParseDigits(s: string): nat
    requires Every(s, IsDigit)
  {
    if s == "" then 0 else 10 * ParseDigits(s[..|s| - 1]) + (s[|s| - 1] as int - '0' as int)
  }

  function PrintDigits(n: nat): (s: string)
    ensures s != "" && Every(s, IsDigit)
  {
    var last := ('0' as int + n % 10) as char;
    if n < 10 then [last] else PrintDigits(n / 10) + [last]
  }

  lemma {:induction false} ParsePrintDigits(n: nat)
    ensures ParseDigits(PrintDigits(n)) == n
  {
    var s := PrintDigits(n);
    var last := ('0' as int + n % 10) as char;
    if n < 10 {
      assert s[..|s| - 1] == "";
    } else {
      ParsePrintDigits(n / 10);
      assert s[..|s| - 1] == PrintDigits(n / 10);
    }
  }

  // ---- the order of keys ----

  /** Keys that JavaScript counts as array indices: decimal numbers as they print, below 2^32 - 1. */
  predicate IsIndex(key: string) {
    key != "" && Every(key, IsDigit) && (key[0] != '0' || |key| == 1) && ParseDigits(key) < 0xffff_ffff
  }

  /** `a` is enumerated before `b` even when it is set later. */
  predicate ComesFirst(a: string, b: string) { IsIndex(a) && (IsIndex(b) ==> ParseDigits(a) < ParseDigits(b)) }
}
