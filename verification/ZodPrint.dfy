/** A printer for schemas, and what every scanner of the parser makes of the texts it prints. */
module ZodPrint {
  import opened Wrappers
  import opened ZodText
  import opened ZodParser

  // ---- the printer ----

  function PrintQuoted(s: string): string { ['"'] + s + ['"'] }

  function PrintItems(items: seq<string>): string {
    if items == [] then ""
    else if |items| == 1 then PrintQuoted(items[0])
    else PrintQuoted(items[0]) + ", " + PrintItems(items[1..])
  }

  function PrintArg(a: Arg): string {
    match a
    case Num(n) => PrintDigits(n)
    case Str(s) => PrintQuoted(s)
    case Items(items) => "[" + PrintItems(items) + "]"
    case Obj(_) => ""
  }

  function PrintArgList(args: seq<Arg>): string {
    if args == [] then ""
    else if |args| == 1 then PrintArg(args[0])
    else PrintArg(args[0]) + ", " + PrintArgList(args[1..])
  }

  function PrintArgs(args: seq<Arg>): string { "(" + PrintArgList(args) + ")" }

  function PrintModifier(m: Modifier): string { m.name + PrintArgs(m.args) }

  function PrintModifiers(ms: seq<Modifier>): seq<string> {
    seq(|ms|, i requires 0 <= i < |ms| => PrintModifier(ms[i]))
  }

  function PrintSuffix(modifiers: Option<seq<Modifier>>): string {
    if modifiers.None? then "" else "." + Join(PrintModifiers(modifiers.value), ".")
  }

  function PrintBase(base: string, baseArgs: Option<seq<Arg>>): string {
    base + if baseArgs.None? then "" else PrintArgs(baseArgs.value)
  }

  function Print(t: TypeInfo): string
    decreases t
  {
    match t
    case Base(base, baseArgs, mods) => Join(["z", PrintBase(base, baseArgs)] + PrintModifiers(mods), ".")
    case NestedObject(props, modifiers) => OBJECT + ("{" + PrintProperties(props) + "})") + PrintSuffix(modifiers)
    case ArrayOfObjects(props, modifiers) =>
      ARRAY + (OBJECT + ("{" + PrintProperties(props) + "})")) + ")" + PrintSuffix(modifiers)
    case SimpleArray(inner, modifiers) => ARRAY + Print(inner) + ")" + PrintSuffix(modifiers)
  }

  function PrintProperties(props: seq<Property>): string
    decreases props
  {
    if props == [] then ""
    else
      var first := props[0].key + ": " + Print(props[0].value);
      if |props| == 1 then first else first + ", " + PrintProperties(props[1..])
  }

  function PrintSchema(props: seq<Property>): string { OBJECT + ("{" + PrintProperties(props) + "})") }

  /** Characters that printed literals may hold. */
  predicate LiteralChar(c: char) { c !in ".\"\\(){}" && !IsLineBreak(c) }

  // ---- reading printed text ----

  /** How deep the brackets, the parentheses and the braces are nested. */
  datatype Level = Level(depth: int, paren: int, brace: int)

  /** All that the parser's scanners remember, in one: brackets outside strings, and parentheses and braces anywhere. */
  datatype Track = Track(scan: Scan, paren: int, brace: int) {
    function At(): Level { Level(scan.depth, paren, brace) }
  }

  function TrackStep(t: Track, c: char): Track {
    Track(ScanStep(t.scan, c),
          t.paren + (if c == '(' then 1 else if c == ')' then -1 else 0),
          t.brace + (if c == '{' then 1 else if c == '}' then -1 else 0))
  }

  function Read(t: Track, w: string): Track
    decreases |w|
  {
    if w == "" then t else Read(TrackStep(t, w[0]), w[1..])
  }

  predicate NotBelow(a: Level, base: Level) { base.depth <= a.depth && base.paren <= a.paren && base.brace <= a.brace }

  /** Reading `w` never goes below `base`, and unless `loose` never meets a comma at its depth. */
  predicate Stays(t: Track, w: string, base: Level, loose: bool)
    decreases |w|
  {
    w == "" ||
    (&& NotBelow(TrackStep(t, w[0]).At(), base)
     && (loose || t.scan.quote.Some? || w[0] != ',' || base.depth < t.scan.depth)
     && Stays(TrackStep(t, w[0]), w[1..], base, loose))
  }

  lemma {:induction false} ReadConcat(t: Track, a: string, b: string)
    ensures Read(t, a + b) == Read(Read(t, a), b)
    decreases |a|
  {
    if a == "" {
      assert a + b == b;
    } else {
      assert (a + b)[1..] == a[1..] + b;
      ReadConcat(TrackStep(t, a[0]), a[1..], b);
    }
  }

  lemma {:induction false} StaysConcat(t: Track, a: string, b: string, base: Level, loose: bool)
    requires Stays(t, a, base, loose) && Stays(Read(t, a), b, base, loose)
    ensures Stays(t, a + b, base, loose)
    decreases |a|
  {
    if a == "" {
      assert a + b == b;
    } else {
      assert (a + b)[1..] == a[1..] + b;
      StaysConcat(TrackStep(t, a[0]), a[1..], b, base, loose);
    }
  }

  lemma {:induction false} StaysAboveLower(t: Track, w: string, base: Level, lower: Level, loose: bool)
    requires Stays(t, w, base, true) && NotBelow(base, lower) && NotBelow(t.At(), base)
    requires loose || lower.depth < base.depth
    ensures Stays(t, w, lower, loose)
    decreases |w|
  {
    if w != "" { StaysAboveLower(TrackStep(t, w[0]), w[1..], base, lower, loose); }
  }

  /** Outside strings, reading `w` from any level stays there and comes back to it. */
  ghost predicate Neutral(w: string, loose: bool) {
    forall t: Track | t.scan.quote.None? ::
      Stays(t, w, t.At(), loose) && Read(t, w).At() == t.At() && Read(t, w).scan.quote.None?
  }

  lemma NeutralAt(w: string, loose: bool, t: Track)
    requires Neutral(w, loose) && t.scan.quote.None?
    ensures Stays(t, w, t.At(), loose) && Read(t, w).At() == t.At() && Read(t, w).scan.quote.None?
  {
  }

  lemma NeutralConcat(a: string, b: string, loose: bool)
    requires Neutral(a, loose) && Neutral(b, loose)
    ensures Neutral(a + b, loose)
  {
    forall t: Track | t.scan.quote.None?
      ensures Stays(t, a + b, t.At(), loose) && Read(t, a + b).At() == t.At() && Read(t, a + b).scan.quote.None?
    {
      ReadConcat(t, a, b);
      StaysConcat(t, a, b, t.At(), loose);
    }
  }

  predicate PlainChar(c: char) { !IsQuote(c) && !IsOpen(c) && !IsClose(c) && c != ',' }

  lemma {:induction false} ReadPlain(t: Track, w: string, base: Level)
    requires t.scan.quote.None? && Every(w, PlainChar) && NotBelow(t.At(), base)
    ensures Stays(t, w, base, false) && Read(t, w).At() == t.At() && Read(t, w).scan.quote.None?
    decreases |w|
  {
    if w != "" { ReadPlain(TrackStep(t, w[0]), w[1..], base); }
  }

  lemma PlainNeutral(w: string)
    requires Every(w, PlainChar)
    ensures Neutral(w, false)
  {
    forall t: Track | t.scan.quote.None?
      ensures Stays(t, w, t.At(), false) && Read(t, w).At() == t.At() && Read(t, w).scan.quote.None?
    {
      ReadPlain(t, w, t.At());
    }
  }

  lemma Loosen(w: string)
    requires Neutral(w, false)
    ensures Neutral(w, true)
  {
    forall t: Track | t.scan.quote.None? ensures Stays(t, w, t.At(), true) {
      LoosenStays(t, w, t.At());
    }
  }

  lemma {:induction false} LoosenStays(t: Track, w: string, base: Level)
    requires Stays(t, w, base, false)
    ensures Stays(t, w, base, true)
    decreases |w|
  {
    if w != "" { LoosenStays(TrackStep(t, w[0]), w[1..], base); }
  }

  lemma {:induction false} ReadLiteral(t: Track, s: string, base: Level)
    requires t.scan.quote == Some('"') && Every(s, LiteralChar) && t.scan.prev != '\\' && NotBelow(t.At(), base)
    ensures Stays(t, s, base, false)
    ensures var r := Read(t, s); r.At() == t.At() && r.scan.quote == Some('"') && r.scan.prev != '\\'
    decreases |s|
  {
    if s != "" {
      assert LiteralChar(s[0]);
      ReadLiteral(TrackStep(t, s[0]), s[1..], base);
    }
  }

  lemma QuotedNeutral(s: string)
    requires Every(s, LiteralChar)
    ensures Neutral(PrintQuoted(s), false)
  {
    var w := PrintQuoted(s);
    assert w[1..] == s + ['"'] && ['"'][1..] == "";
    forall t: Track | t.scan.quote.None?
      ensures Stays(t, w, t.At(), false) && Read(t, w).At() == t.At() && Read(t, w).scan.quote.None?
    {
      var inside := TrackStep(t, '"');
      ReadLiteral(inside, s, t.At());
      ReadConcat(inside, s, ['"']);
      StaysConcat(inside, s, ['"'], t.At(), false);
    }
  }

  lemma ReadWrapped(t: Track, open: char, w: string, close: char)
    requires Neutral(w, true) && t.scan.quote.None?
    requires (open == '(' && close == ')') || (open == '[' && close == ']') || (open == '{' && close == '}')
    ensures var all := [open] + w + [close];
            Stays(t, all, t.At(), false) && Read(t, all).At() == t.At() && Read(t, all).scan.quote.None?
  {
    hide Neutral;
    var all := [open] + w + [close];
    var inside := TrackStep(t, open);
    var after := Read(inside, w);
    NeutralAt(w, true, inside);
    StaysAboveLower(inside, w, inside.At(), t.At(), false);
    ReadConcat(inside, w, [close]);
    assert [close][1..] == "";
    assert Stays(after, [close], t.At(), false);
    StaysConcat(inside, w, [close], t.At(), false);
    assert all[1..] == w + [close];
  }

  lemma WrapNeutral(open: char, w: string, close: char)
    requires Neutral(w, true)
    requires (open == '(' && close == ')') || (open == '[' && close == ']') || (open == '{' && close == '}')
    ensures Neutral([open] + w + [close], false)
  {
    forall t: Track | t.scan.quote.None?
      ensures var all := [open] + w + [close];
              Stays(t, all, t.At(), false) && Read(t, all).At() == t.At() && Read(t, all).scan.quote.None?
    {
      ReadWrapped(t, open, w, close);
    }
  }

  lemma CommaNeutral()
    ensures Neutral(", ", true)
  {
    forall t: Track | t.scan.quote.None?
      ensures Stays(t, ", ", t.At(), true) && Read(t, ", ").At() == t.At() && Read(t, ", ").scan.quote.None?
    {
      var w := ", ";
      assert w[1..] == " " && w[1..][1..] == "";
      assert Read(t, w) == Read(TrackStep(t, ','), w[1..]);
      assert Read(TrackStep(t, ','), w[1..]) == TrackStep(TrackStep(t, ','), ' ');
    }
  }

  // ---- the scanners on neutral text ----

  lemma {:induction false} PiecesPass(w: string, rest: string, current: string, t: Track, base: Level)
    requires Stays(t, w, base, false) && base.depth >= 0
    ensures Pieces(w + rest, current, t.scan) == Pieces(rest, current + w, Read(t, w).scan)
    decreases |w|
  {
    if w == "" {
      assert w + rest == rest && current + w == current;
    } else {
      assert (w + rest)[1..] == w[1..] + rest && current + [w[0]] + w[1..] == current + w;
      PiecesPass(w[1..], rest, current + [w[0]], TrackStep(t, w[0]), base);
    }
  }

  function Shift(end: Option<nat>, n: nat): Option<nat> { if end.None? then None else Some(end.value + n) }

  lemma {:induction false} CloseParenPass(w: string, rest: string, t: Track, base: Level)
    requires Stays(t, w, base, true) && base.paren >= 1
    ensures CloseParen(w + rest, t.paren) == Shift(CloseParen(rest, Read(t, w).paren), |w|)
    decreases |w|
  {
    if w == "" {
      assert w + rest == rest;
    } else {
      assert (w + rest)[1..] == w[1..] + rest;
      CloseParenPass(w[1..], rest, TrackStep(t, w[0]), base);
    }
  }

  lemma {:induction false} CloseObjectPass(w: string, rest: string, t: Track, base: Level)
    requires Stays(t, w, base, true) && base.brace >= 1 && NotBelow(t.At(), base)
    ensures CloseObject(w + rest, t.brace, t.paren, true)
         == Shift(CloseObject(rest, Read(t, w).brace, Read(t, w).paren, true), |w|)
    decreases |w|
  {
    if w == "" {
      assert w + rest == rest;
    } else {
      assert (w + rest)[1..] == w[1..] + rest;
      CloseObjectPass(w[1..], rest, TrackStep(t, w[0]), base);
    }
  }

  lemma SplitPasses(w: string, rest: string, s: Scan) returns (after: Scan)
    requires Neutral(w, false) && s.quote.None? && s.depth >= 0
    ensures after.quote.None? && after.depth == s.depth
    ensures forall current :: Pieces(w + rest, current, s) == Pieces(rest, current + w, after)
  {
    var t := Track(s, 0, 0);
    after := Read(t, w).scan;
    forall current ensures Pieces(w + rest, current, s) == Pieces(rest, current + w, after) {
      PiecesPass(w, rest, current, t, t.At());
    }
  }

  /** The parenthesis after neutral text closes the one before it. */
  lemma ParenCloses(w: string, rest: string)
    requires Neutral(w, true)
    ensures CloseParen(['('] + w + [')'] + rest, 0) == Some(|w| + 2)
  {
    hide Neutral;
    var t := Track(SCAN_START, 1, 0);
    var tail := [')'] + rest;
    NeutralAt(w, true, t);
    CloseParenPass(w, tail, t, t.At());
    var s := ['('] + w + [')'] + rest;
    assert s[0] == '(' && s[1..] == w + tail;
  }

  /** The closing of an object is found after its neutral contents. */
  lemma ObjectCloses(w: string, rest: string)
    requires Neutral(w, true)
    ensures CloseObject("({" + w + "})" + rest, 0, 0, false) == Some(|w| + 4)
  {
    hide Neutral;
    var t := Track(SCAN_START, 0, 1);
    var tail := "})" + rest;
    NeutralAt(w, true, t);
    CloseObjectPass(w, tail, t, t.At());
    ObjectTail(rest);
    var s1 := "{" + (w + tail);
    var s := "(" + s1;
    assert "({" + w + "})" + rest == s;
    assert s1[1..] == w + tail && s[1..] == s1;
    assert CloseObject(s1, 0, 0, false) == Shift(CloseObject(w + tail, 1, 0, true), 1);
    assert CloseObject(s, 0, 0, false) == Shift(CloseObject(s1, 0, 0, false), 1);
  }

  lemma ObjectTail(rest: string)
    ensures CloseObject("})" + rest, 1, 0, true) == Some(2)
  {
    var tail := "})" + rest;
    assert tail[1..] == ")" + rest;
    assert CloseObject(tail[1..], 0, 0, true) == Some(1);
  }
}
