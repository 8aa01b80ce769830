/** Parsing a printed schema gives what it means, and the schema itself exactly when it is faithful. */
module ZodRoundTrip {
  import opened Wrappers
  import opened ZodText
  import opened ZodParser
  import opened ZodPrint
  import opened ZodMeaning

  // ---- arguments ----

  /** The inside of printed arguments: no dot, parenthesis, brace or line break. */
  predicate InnerChar(c: char) { c !in ".(){}" && !IsLineBreak(c) }

  lemma LiteralsAreInner(s: string)
    requires Every(s, LiteralChar)
    ensures Every(PrintQuoted(s), InnerChar)
  {
    forall i | 0 <= i < |PrintQuoted(s)| ensures InnerChar(PrintQuoted(s)[i]) {
      if 0 < i < |s| + 1 { assert LiteralChar(s[i - 1]) && PrintQuoted(s)[i] == s[i - 1]; }
    }
  }

  lemma EveryConcat(a: string, b: string, p: char -> bool)
    requires Every(a, p) && Every(b, p)
    ensures Every(a + b, p)
  {
  }

  lemma {:induction false} ItemsShape(items: seq<string>)
    requires forall i | 0 <= i < |items| :: Every(items[i], LiteralChar)
    ensures Every(PrintItems(items), InnerChar) && Neutral(PrintItems(items), true)
    decreases |items|
  {
    hide Neutral;
    if items == [] {
      PlainNeutral("");
      Loosen("");
    } else {
      var first := PrintQuoted(items[0]);
      LiteralsAreInner(items[0]);
      QuotedNeutral(items[0]);
      Loosen(first);
      if |items| > 1 {
        ItemsShape(items[1..]);
        CommaNeutral();
        NeutralConcat(first, ", ", true);
        NeutralConcat(first + ", ", PrintItems(items[1..]), true);
        EveryConcat(first, ", ", InnerChar);
        EveryConcat(first + ", ", PrintItems(items[1..]), InnerChar);
      }
    }
  }

  lemma ArgShape(a: Arg)
    requires PrintableArg(a)
    ensures Every(PrintArg(a), InnerChar) && Neutral(PrintArg(a), false)
    ensures PrintArg(a) != "" && Trimmed(PrintArg(a))
  {
    match a
    case Num(n) => PlainNeutral(PrintDigits(n));
    case Str(s) => LiteralsAreInner(s); QuotedNeutral(s);
    case Items(items) =>
      ItemsShape(items);
      WrapNeutral('[', PrintItems(items), ']');
      EveryConcat("[", PrintItems(items), InnerChar);
      EveryConcat("[" + PrintItems(items), "]", InnerChar);
  }

  lemma {:induction false} ArgListShape(args: seq<Arg>)
    requires args != [] && forall i | 0 <= i < |args| :: PrintableArg(args[i])
    ensures var s, first, last := PrintArgList(args), PrintArg(args[0]), PrintArg(args[|args| - 1]);
            && Every(s, InnerChar) && Neutral(s, true) && Trimmed(s)
            && s != "" && first != "" && last != ""
            && s[0] == first[0] && s[|s| - 1] == last[|last| - 1]
    decreases |args|
  {
    hide Neutral;
    hide PrintArg;
    hide PrintableArg;
    ArgShape(args[0]);
    var first := PrintArg(args[0]);
    Loosen(first);
    if |args| > 1 {
      var more := PrintArgList(args[1..]);
      ArgListShape(args[1..]);
      CommaNeutral();
      NeutralConcat(first, ", ", true);
      NeutralConcat(first + ", ", more, true);
      EveryConcat(first, ", ", InnerChar);
      EveryConcat(first + ", ", more, InnerChar);
      assert args[1..][|args[1..]| - 1] == args[|args| - 1];
    }
  }

  lemma ListedIsPrintable(args: seq<Arg>)
    requires PrintableArgs(args)
    ensures forall i | 0 <= i < |args| :: PrintableArg(args[i])
  {
  }

  lemma ArgsShape(args: seq<Arg>)
    requires PrintableArgs(args)
    ensures PrintArgs(args) == "(" + PrintArgList(args) + ")" && Every(PrintArgList(args), InnerChar)
    ensures Neutral(PrintArgList(args), true) && Neutral(PrintArgs(args), false)
    ensures Slice(PrintArgs(args)) == PrintArgList(args) && Trimmed(PrintArgList(args))
  {
    hide Neutral;
    ListedIsPrintable(args);
    PlainNeutral("");
    Loosen("");
    if args != [] { ArgListShape(args); }
    WrapNeutral('(', PrintArgList(args), ')');
  }

  /** A quoted literal inside an item list is read up to its closing quote. */
  lemma {:induction false} ItemsPassLiteral(s: string, rest: string, current: string, prev: char)
    requires Every(s, LiteralChar) && prev != '\\'
    ensures ItemsFrom(s + ['"'] + rest, current, Some('"'), prev) == ItemsFrom(rest, current + s + ['"'], None, '"')
    decreases |s|
  {
    var all := s + ['"'] + rest;
    if s == "" {
      assert all == ['"'] + rest && all[1..] == rest;
      assert current + [all[0]] == current + s + ['"'];
    } else {
      assert LiteralChar(s[0]);
      assert all[1..] == s[1..] + ['"'] + rest && all[0] == s[0];
      ItemsPassLiteral(s[1..], rest, current + [s[0]], s[0]);
      assert current + [s[0]] + s[1..] + ['"'] == current + s + ['"'];
    }
  }

  lemma StripPrinted(blank: string, s: string)
    requires Every(blank, IsSpace)
    ensures Trim(blank + PrintQuoted(s)) != "" && StripQuotes(Trim(blank + PrintQuoted(s))) == s
  {
    TrimTrimmed(blank, PrintQuoted(s));
    assert PrintQuoted(s)[1..] == s + ['"'];
  }

  lemma ItemsReadQuoted(s: string, rest: string, blank: string, prev: char)
    requires Every(s, LiteralChar)
    ensures ItemsFrom(PrintQuoted(s) + rest, blank, None, prev) == ItemsFrom(rest, blank + PrintQuoted(s), None, '"')
  {
    var all := PrintQuoted(s) + rest;
    assert all[1..] == s + ['"'] + rest;
    ItemsPassLiteral(s, rest, blank + ['"'], '"');
    assert blank + ['"'] + s + ['"'] == blank + PrintQuoted(s);
  }

  lemma ItemsAtComma(current: string, more: string, prev: char)
    ensures ItemsFrom(", " + more, current, None, prev)
            == [StripQuotes(Trim(current))] + ItemsFrom(more, " ", None, ' ')
  {
    var rest := ", " + more;
    assert rest[1..] == " " + more && (" " + more)[1..] == more;
    assert "" + [' '] == " ";
    assert ItemsFrom(" " + more, "", None, ',') == ItemsFrom(more, " ", None, ' ');
  }

  lemma {:induction false} ItemsRoundTrip(items: seq<string>, blank: string, prev: char)
    requires items != [] && (forall i | 0 <= i < |items| :: Every(items[i], LiteralChar))
    requires Every(blank, IsSpace)
    ensures ItemsFrom(PrintItems(items), blank, None, prev) == items
    decreases |items|
  {
    hide Trim;
    hide StripQuotes;
    hide PrintQuoted;
    var s := items[0];
    StripPrinted(blank, s);
    if |items| == 1 {
      assert PrintQuoted(s) + "" == PrintQuoted(s);
      ItemsReadQuoted(s, "", blank, prev);
    } else {
      var more := PrintItems(items[1..]);
      assert PrintItems(items) == PrintQuoted(s) + (", " + more);
      ItemsReadQuoted(s, ", " + more, blank, prev);
      ItemsAtComma(blank + PrintQuoted(s), more, '"');
      ItemsRoundTrip(items[1..], " ", ' ');
    }
  }

  lemma OneArgRoundTrip(a: Arg)
    requires PrintableArg(a)
    ensures ParseArguments(PrintArgs([a])) == [a]
  {
    ArgsShape([a]);
    var inner := PrintArgList([a]);
    TrimIdentity(inner);
    ArgShape(a);
    match a
    case Num(n) =>
      ParsePrintDigits(n);
      assert IsDigit(inner[0]);
    case Str(s) =>
      assert Slice(inner) == s;
    case Items(items) =>
      assert Slice(inner) == PrintItems(items);
      if items != [] { ItemsRoundTrip(items, "", ' '); }
  }

  // ---- several arguments ----

  lemma NoCommaInside(a: Arg)
    requires ListedArg(a)
    ensures ',' !in PrintArg(a)
  {
    if a.Num? {
      assert forall i | 0 <= i < |PrintDigits(a.n)| :: IsDigit(PrintDigits(a.n)[i]);
    }
  }

  lemma ScalarRoundTrip(a: Arg)
    requires ListedArg(a)
    ensures ParseScalar(PrintArg(a)) == a
  {
    if a.Num? {
      ParsePrintDigits(a.n);
    } else {
      var s := PrintQuoted(a.s);
      assert !IsDigit(s[0]);
      assert Slice(s) == a.s;
    }
  }

  /** The pieces between the commas: each argument, behind a blank but for the first. */
  function Spaced(args: seq<Arg>): seq<string> {
    seq(|args|, i requires 0 <= i < |args| => " " + PrintArg(args[i]))
  }

  lemma {:induction false} ListIsJoined(args: seq<Arg>)
    requires args != []
    ensures Join([PrintArg(args[0])] + Spaced(args[1..]), [',']) == PrintArgList(args)
    ensures Join(Spaced(args), [',']) == " " + PrintArgList(args)
    decreases |args|
  {
    hide PrintArg;
    var first := PrintArg(args[0]);
    assert Spaced(args) == [" " + first] + Spaced(args[1..]);
    assert ([first] + Spaced(args[1..]))[1..] == Spaced(args[1..]);
    assert ([" " + first] + Spaced(args[1..]))[1..] == Spaced(args[1..]);
    if |args| > 1 {
      ListIsJoined(args[1..]);
      var more := PrintArgList(args[1..]);
      assert first + [','] + (" " + more) == first + ", " + more;
      assert " " + first + [','] + (" " + more) == " " + (first + ", " + more);
    }
  }

  lemma ListedRoundTrip(args: seq<Arg>)
    requires |args| > 1 && forall i | 0 <= i < |args| :: ListedArg(args[i])
    ensures var parts := Split(PrintArgList(args), ',');
            seq(|parts|, i requires 0 <= i < |parts| => ParseScalar(Trim(parts[i]))) == args
  {
    hide PrintArg;
    hide ParseScalar;
    hide Trim;
    hide Join;
    var parts := [PrintArg(args[0])] + Spaced(args[1..]);
    ListIsJoined(args);
    forall i | 0 <= i < |parts| ensures ',' !in parts[i] && ParseScalar(Trim(parts[i])) == args[i] {
      ListedReads(args[i]);
      if i > 0 { assert parts[i] == Spaced(args[1..])[i - 1] == " " + PrintArg(args[i]); }
    }
    SplitJoin(parts, ',');
  }

  lemma ListedReads(a: Arg)
    requires ListedArg(a)
    ensures ',' !in PrintArg(a) && ',' !in " " + PrintArg(a)
    ensures ParseScalar(Trim(PrintArg(a))) == a && ParseScalar(Trim(" " + PrintArg(a))) == a
  {
    hide Neutral;
    NoCommaInside(a);
    ScalarRoundTrip(a);
    ArgShape(a);
    TrimIdentity(PrintArg(a));
    TrimTrimmed(" ", PrintArg(a));
  }

  lemma {:induction false} ListHasComma(args: seq<Arg>)
    requires |args| > 1
    ensures !IsNumber(PrintArgList(args))
  {
    hide PrintArg;
    var s := PrintArgList(args);
    assert s[|PrintArg(args[0])|] == ',' && !IsDigit(',');
  }

  lemma ListEnds(a: Arg)
    requires ListedArg(a)
    ensures var s := PrintArg(a);
            s != "" && s[0] != '[' && (s[0] == '"' <==> a.Str?) && (s[|s| - 1] == '"' <==> a.Str?)
  {
    if a.Num? {
      var s := PrintDigits(a.n);
      assert IsDigit(s[0]) && IsDigit(s[|s| - 1]);
    }
  }

  lemma SeveralArgsRead(args: seq<Arg>)
    requires |args| > 1 && PrintableArgs(args)
    ensures ParseArguments(PrintArgs(args)) == MeantArgs(args)
  {
    hide Neutral;
    hide PrintArg;
    hide PrintArgList;
    hide ParseScalar;
    hide Trim;
    hide Every;
    hide Split;
    ArgsShape(args);
    var inner := PrintArgList(args);
    TrimIdentity(inner);
    ListedIsPrintable(args);
    ArgListShape(args);
    ListHasComma(args);
    ListEnds(args[0]);
    ListEnds(args[|args| - 1]);
    ListedRoundTrip(args);
  }

  lemma NotBraced(args: seq<Arg>)
    requires PrintableArgs(args)
    ensures ParseComplexArguments(PrintArgs(args)) == ParseArguments(PrintArgs(args))
  {
    hide Neutral;
    hide PrintArgList;
    hide ParseObjectLiteral;
    ArgsShape(args);
    var inner := PrintArgList(args);
    TrimIdentity(inner);
    assert inner != "" ==> InnerChar(inner[0]);
  }

  /** Printed arguments are read as they mean, whichever of the two readers takes them. */
  lemma ArgsRoundTrip(args: seq<Arg>)
    requires PrintableArgs(args)
    ensures ParseArguments(PrintArgs(args)) == MeantArgs(args) == ParseComplexArguments(PrintArgs(args))
  {
    hide ParseComplexArguments;
    hide PrintableArg;
    hide ListedArg;
    NotBraced(args);
    if args == [] {
      assert Slice(PrintArgs(args)) == "";
    } else if |args| == 1 {
      hide ParseArguments;
      assert args == [args[0]];
      OneArgRoundTrip(args[0]);
    } else {
      hide ParseArguments;
      SeveralArgsRead(args);
    }
  }

  /** Arguments come back exactly when they are not several between a first and a last string. */
  lemma ArgsRoundTripIff(args: seq<Arg>)
    requires PrintableArgs(args)
    ensures ParseArguments(PrintArgs(args)) == args <==> !LooksQuoted(args)
  {
    hide ParseArguments;
    hide PrintArgs;
    ArgsRoundTrip(args);
  }

  // ---- calls ----

  lemma CallRoundTrip(name: string, args: seq<Arg>)
    requires IsWord(name) && PrintableArgs(args)
    ensures var text := name + PrintArgs(args);
            && MatchCall(text) == Some(Call(name, Some(PrintArgs(args))))
            && Trimmed(text) && text != "" && '.' !in text && Neutral(text, false)
  {
    hide Neutral;
    ArgsShape(args);
    var text, rest := name + PrintArgs(args), PrintArgs(args);
    WordLengthOf(name, rest);
    assert text[|name|..] == rest && text[..|name|] == name;
    assert IsWordChar(name[0]) && text[0] == name[0];
    assert text[|text| - 1] == rest[|rest| - 1];
    assert forall i | 0 <= i < |PrintArgList(args)| :: InnerChar(PrintArgList(args)[i]);
    PlainNeutral(name);
    NeutralConcat(name, rest, false);
    forall i | 0 <= i < |text| ensures text[i] != '.' {
      if i < |name| { assert IsWordChar(name[i]); } else { assert text[i] == rest[i - |name|]; }
    }
  }

  lemma WordCall(name: string)
    requires IsWord(name)
    ensures MatchCall(name) == Some(Call(name, None)) && Trimmed(name) && '.' !in name && Neutral(name, false)
  {
    WordLengthOf(name, "");
    assert name + "" == name;
    assert IsWordChar(name[0]) && IsWordChar(name[|name| - 1]);
    PlainNeutral(name);
  }

  lemma {:induction false} ModifiersRoundTrip(ms: seq<Modifier>)
    requires PrintableModifiers(ms)
    ensures ParseModifiers(PrintModifiers(ms)) == Ok(MeantModifiers(ms))
    ensures (forall i | 0 <= i < |ms| :: IsAllowed(ms[i].name)) ==>
              ParseArrayModifiers(PrintModifiers(ms)) == Ok(MeantModifiers(ms))
    decreases |ms|
  {
    hide IsAllowed;
    hide Neutral;
    hide MatchCall;
    hide ParseArguments;
    hide PrintArgs;
    hide Trim;
    if ms == [] {
      assert MeantModifiers(ms) == [];
    } else {
      var m := ms[0];
      var texts := PrintModifiers(ms);
      assert texts[0] == PrintModifier(m) && texts[1..] == PrintModifiers(ms[1..]);
      CallRoundTrip(m.name, m.args);
      TrimIdentity(texts[0]);
      ArgsRoundTrip(m.args);
      ModifiersRoundTrip(ms[1..]);
      MeantModifiersHead(ms);
    }
  }

  lemma MeantModifiersHead(ms: seq<Modifier>)
    requires ms != []
    ensures MeantModifiers(ms) == [Modifier(ms[0].name, MeantArgs(ms[0].args))] + MeantModifiers(ms[1..])
  {
    hide MeantArgs;
  }

  /** A part of a dotted chain. */
  ghost predicate Part(p: string) { p != "" && Trimmed(p) && '.' !in p && Neutral(p, false) }

  /** Parts joined by dots are neutral, trimmed and not empty. */
  lemma {:induction false} JoinShape(parts: seq<string>)
    requires parts != [] && forall i | 0 <= i < |parts| :: Part(parts[i])
    ensures var s := Join(parts, "."); s != "" && Trimmed(s) && Neutral(s, false)
    decreases |parts|
  {
    hide Neutral;
    assert Part(parts[0]);
    if |parts| > 1 {
      var rest := Join(parts[1..], ".");
      JoinShape(parts[1..]);
      PlainNeutral(".");
      NeutralConcat(parts[0], ".", false);
      NeutralConcat(parts[0] + ".", rest, false);
      assert Join(parts, ".") == parts[0] + "." + rest;
    }
  }

  lemma ModifierParts(ms: seq<Modifier>)
    requires PrintableModifiers(ms)
    ensures forall i | 0 <= i < |ms| :: Part(PrintModifiers(ms)[i])
  {
    hide Neutral;
    forall i | 0 <= i < |ms| ensures Part(PrintModifiers(ms)[i]) {
      CallRoundTrip(ms[i].name, ms[i].args);
    }
  }

  /** The parts of a chain are what splitting it at its dots gives back. */
  lemma SplitParts(parts: seq<string>)
    requires parts != [] && forall i | 0 <= i < |parts| :: Part(parts[i])
    ensures Split(Join(parts, "."), '.') == parts
  {
    hide Neutral;
    SplitJoin(parts, '.');
  }

  // ---- suffixes ----

  lemma SuffixShape(modifiers: Option<seq<Modifier>>)
    requires PrintableSuffix(modifiers)
    ensures Neutral(PrintSuffix(modifiers), false)
    ensures var s := PrintSuffix(modifiers); s != "" ==> s[0] == '.' && !IsSpace(s[|s| - 1])
  {
    hide Neutral;
    hide IsAllowed;
    PlainNeutral("");
    if modifiers.Some? {
      var parts := PrintModifiers(modifiers.value);
      ModifierParts(modifiers.value);
      JoinShape(parts);
      PlainNeutral(".");
      NeutralConcat(".", Join(parts, "."), false);
    }
  }

  lemma ArraySuffixRoundTrip(ms: seq<Modifier>)
    requires PrintableSuffix(Some(ms))
    ensures var suffix := PrintSuffix(Some(ms));
            suffix != "" && suffix[0] == '.' && ParseArrayModifiers(Split(suffix[1..], '.')) == Ok(MeantModifiers(ms))
  {
    hide Neutral;
    hide IsAllowed;
    var parts := PrintModifiers(ms);
    ModifierParts(ms);
    SplitParts(parts);
    ModifiersRoundTrip(ms);
    assert PrintSuffix(Some(ms))[1..] == Join(parts, ".");
  }

  lemma NextModifierReads(m: Modifier, rest: string)
    requires IsWord(m.name) && PrintableArgs(m.args) && (rest != "" ==> rest[0] == '.')
    ensures var text := PrintModifier(m) + rest;
            && WordLength(text) > 0
            && NextModifier(text)
            == ReadModifier(Modifier(m.name, MeantArgs(m.args)), |PrintModifier(m)| + if rest == "" then 0 else 1)
  {
    hide Neutral;
    hide ParseComplexArguments;
    hide CloseParen;
    hide PrintArg;
    var args := PrintArgs(m.args);
    var text := PrintModifier(m) + rest;
    var n := |m.name|;
    assert text == m.name + (args + rest);
    ArgsShape(m.args);
    WordLengthOf(m.name, args + rest);
    assert text[n..] == args + rest && text[..n] == m.name;
    ParenCloses(PrintArgList(m.args), rest);
    assert args + rest == ['('] + PrintArgList(m.args) + [')'] + rest;
    ArgsRoundTrip(m.args);
    assert text[n..n + |args|] == args;
    assert |PrintModifier(m)| == n + |args|;
    assert rest != "" ==> text[n + |args|] == rest[0];
  }

  lemma {:induction false} ObjectModifiersRoundTrip(ms: seq<Modifier>)
    requires PrintableModifiers(ms) && forall i | 0 <= i < |ms| :: IsAllowed(ms[i].name)
    ensures ParseObjectModifiers(Join(PrintModifiers(ms), ".")) == Ok(MeantModifiers(ms))
    decreases |ms|
  {
    hide IsAllowed;
    hide NextModifier;
    hide PrintModifier;
    if ms == [] {
      assert WordLength("") == 0 && MeantModifiers(ms) == [];
    } else {
      var m, parts := ms[0], PrintModifiers(ms);
      assert parts[1..] == PrintModifiers(ms[1..]);
      var more := Join(parts[1..], ".");
      var rest := if |ms| == 1 then "" else "." + more;
      var text := Join(parts, ".");
      assert text == PrintModifier(m) + rest;
      NextModifierReads(m, rest);
      ObjectModifiersRoundTrip(ms[1..]);
      assert text[|PrintModifier(m)| + (if rest == "" then 0 else 1)..] == more;
      MeantModifiersHead(ms);
    }
  }

  // ---- base types ----

  lemma BaseCall(base: string, baseArgs: Option<seq<Arg>>)
    requires IsWord(base) && (baseArgs.Some? ==> PrintableArgs(baseArgs.value))
    ensures var text := PrintBase(base, baseArgs);
            && MatchCall(text) == Some(Call(base, if baseArgs.None? then None else Some(PrintArgs(baseArgs.value))))
            && Part(text)
  {
    hide Neutral;
    hide MatchCall;
    if baseArgs.None? {
      WordCall(base);
      assert base + "" == base;
    } else {
      CallRoundTrip(base, baseArgs.value);
    }
  }

  function BaseParts(base: string, baseArgs: Option<seq<Arg>>, mods: seq<Modifier>): seq<string> {
    ["z", PrintBase(base, baseArgs)] + PrintModifiers(mods)
  }

  lemma BasePartsShape(base: string, baseArgs: Option<seq<Arg>>, mods: seq<Modifier>)
    requires IsWord(base) && (baseArgs.Some? ==> PrintableArgs(baseArgs.value)) && PrintableModifiers(mods)
    ensures forall i | 0 <= i < |BaseParts(base, baseArgs, mods)| :: Part(BaseParts(base, baseArgs, mods)[i])
  {
    hide Neutral;
    hide MatchCall;
    hide PrintBase;
    BaseCall(base, baseArgs);
    PlainNeutral("z");
    ModifierParts(mods);
    var parts := BaseParts(base, baseArgs, mods);
    forall i | 0 <= i < |parts| ensures Part(parts[i]) {
      if i >= 2 { assert parts[i] == PrintModifiers(mods)[i - 2]; }
    }
  }

  lemma BaseRoundTrip(base: string, baseArgs: Option<seq<Arg>>, mods: seq<Modifier>)
    requires IsWord(base) && (baseArgs.Some? ==> PrintableArgs(baseArgs.value)) && PrintableModifiers(mods)
    ensures ParseBase(Split(Join(BaseParts(base, baseArgs, mods), "."), '.')) == Ok(Meant(Base(base, baseArgs, mods)))
  {
    hide Neutral;
    hide MatchCall;
    hide ParseArguments;
    hide IsAllowed;
    hide PrintBase;
    hide Trim;
    var parts := BaseParts(base, baseArgs, mods);
    BasePartsShape(base, baseArgs, mods);
    SplitParts(parts);
    assert Part(parts[0]) && Part(parts[1]);
    TrimIdentity(parts[0]);
    TrimIdentity(parts[1]);
    BaseCall(base, baseArgs);
    if baseArgs.Some? { ArgsRoundTrip(baseArgs.value); }
    assert parts[2..] == PrintModifiers(mods);
    ModifiersRoundTrip(mods);
  }

  lemma BaseText(base: string, baseArgs: Option<seq<Arg>>, mods: seq<Modifier>) returns (tail: string)
    ensures Join(BaseParts(base, baseArgs, mods), ".") == "z." + (base + tail)
    ensures tail != "" ==> tail[0] == '(' || tail[0] == '.'
  {
    hide PrintArg;
    var parts := BaseParts(base, baseArgs, mods);
    var args := if baseArgs.None? then "" else PrintArgs(baseArgs.value);
    tail := args + if mods == [] then "" else "." + Join(PrintModifiers(mods), ".");
    assert parts[1..] == [base + args] + PrintModifiers(mods);
    assert parts[1..][1..] == PrintModifiers(mods);
    assert Join(parts[1..], ".") == base + tail;
  }

  /** A printed base type does not look like an object or an array. */
  lemma BaseIsNotNested(base: string, baseArgs: Option<seq<Arg>>, mods: seq<Modifier>)
    requires IsWord(base) && base != "object" && base != "array"
    ensures var s := Join(BaseParts(base, baseArgs, mods), "."); !(OBJECT <= s) && !(ARRAY <= s)
  {
    hide Join;
    hide BaseParts;
    var tail := BaseText(base, baseArgs, mods);
    var s := Join(BaseParts(base, baseArgs, mods), ".");
    assert s[2..] == base + tail;
    if OBJECT <= s {
      assert "object(" == OBJECT[2..] <= s[2..];
      WordFollowedByParen(base, "object", tail);
    }
    if ARRAY <= s {
      assert "array(" == ARRAY[2..] <= s[2..];
      WordFollowedByParen(base, "array", tail);
    }
  }

  lemma WordFollowedByParen(base: string, word: string, tail: string)
    requires Every(base, IsWordChar) && Every(word, IsWordChar) && word + "(" <= base + tail
    requires tail != "" ==> !IsWordChar(tail[0])
    ensures base == word
  {
    var s := base + tail;
    var t := s[|word| + 1..];
    assert s == word + ("(" + t);
    WordLengthOf(word, "(" + t);
    WordLengthOf(base, tail);
    assert word == s[..|word|];
    assert base == s[..|base|];
  }

  // ---- objects and arrays ----

  lemma ObjectContentOf(content: string)
    ensures ObjectContent(OBJECT + ("{" + content + "})")) == Some(content)
  {
    hide LastClose;
    var s := OBJECT + ("{" + content + "})");
    var n := |s|;
    assert s[9..][0] == '{';
    assert Blanks(s[9..]) == 0;
    assert s[n - 1] == ')' && s[n - 2] == '}';
    assert s[n - 1..] == ")";
    LastCloseAtEnd(s, 10);
    assert s[10..n - 2] == content;
    assert ObjectContentHere(s) == Some(content);
  }

  lemma LastCloseAtEnd(s: string, lo: nat)
    requires lo + 2 <= |s| && s[|s| - 2] == '}' && s[|s| - 1] == ')'
    ensures LastClose(s, lo, |s|) == Some(|s| - 2)
  {
    assert s[|s| - 1..] == ")";
    assert Blanks(")") == 0;
    assert ClosesObject(s, |s| - 2);
    assert LastClose(s, lo, |s|) == LastClose(s, lo, |s| - 1);
  }

  lemma ExtractsObject(content: string, modifiers: Option<seq<Modifier>>)
    requires Neutral(content, true) && PrintableSuffix(modifiers)
    ensures var text := OBJECT + ("{" + content + "})");
            var e := ExtractObjectWithModifiers(text + PrintSuffix(modifiers));
            && e.Ok? && e.value.hasModifiers == modifiers.Some?
            && (modifiers.Some? ==> e.value.part == text && Some(e.value.modifiers) == MeantSuffix(modifiers))
  {
    hide Neutral;
    hide IsAllowed;
    hide ParseObjectModifiers;
    hide CloseObject;
    var text, suffix := OBJECT + ("{" + content + "})"), PrintSuffix(modifiers);
    var s := text + suffix;
    ObjectCloses(content, suffix);
    assert s[8..] == "({" + content + "})" + suffix;
    assert s[..8 + (|content| + 4)] == text && s[8 + (|content| + 4)..] == suffix;
    SuffixShape(modifiers);
    if modifiers.Some? {
      ObjectModifiersRoundTrip(modifiers.value);
      assert suffix[1..] == Join(PrintModifiers(modifiers.value), ".");
    }
  }

  lemma ExtractsArray(content: string, modifiers: Option<seq<Modifier>>)
    requires Neutral(content, false) && PrintableSuffix(modifiers)
    ensures var text := ARRAY + content + ")";
            var e := ExtractArrayWithModifiers(text + PrintSuffix(modifiers));
            && e.Ok? && e.value.hasModifiers == modifiers.Some?
            && (modifiers.Some? ==> e.value.part == text && Some(e.value.modifiers) == MeantSuffix(modifiers))
  {
    hide Neutral;
    hide IsAllowed;
    hide ParseArrayModifiers;
    hide CloseParen;
    hide Split;
    hide Join;
    hide PrintModifiers;
    var text, suffix := ARRAY + content + ")", PrintSuffix(modifiers);
    var s := text + suffix;
    Loosen(content);
    ParenCloses(content, suffix);
    assert s[7..] == ['('] + content + [')'] + suffix;
    assert s[..7 + (|content| + 2)] == text && s[7 + (|content| + 2)..] == suffix;
    SuffixShape(modifiers);
    if modifiers.Some? { ArraySuffixRoundTrip(modifiers.value); }
  }

  lemma ArrayContentOf(content: string)
    ensures ArrayContent(ARRAY + content + ")") == Some(content)
  {
    var s := ARRAY + content + ")";
    assert s[8..|s| - 1] == content;
  }

  // ---- the shape of printed types ----

  lemma {:induction false} PrintShape(t: TypeInfo)
    requires Printable(t)
    ensures Neutral(Print(t), false) && Print(t) != "" && Trimmed(Print(t))
    decreases t
  {
    hide Neutral;
    hide IsAllowed;
    match t
    case Base(base, baseArgs, mods) =>
      BasePartsShape(base, baseArgs, mods);
      JoinShape(BaseParts(base, baseArgs, mods));
    case NestedObject(props, modifiers) =>
      PropertiesShape(props);
      ObjectShape(PrintProperties(props));
      WithSuffix(OBJECT + ("{" + PrintProperties(props) + "})"), modifiers);
    case ArrayOfObjects(props, modifiers) =>
      PropertiesShape(props);
      ObjectShape(PrintProperties(props));
      ArrayShape(OBJECT + ("{" + PrintProperties(props) + "})"));
      WithSuffix(ARRAY + (OBJECT + ("{" + PrintProperties(props) + "})")) + ")", modifiers);
    case SimpleArray(inner, modifiers) =>
      PrintShape(inner);
      ArrayShape(Print(inner));
      WithSuffix(ARRAY + Print(inner) + ")", modifiers);
  }

  lemma ObjectShape(content: string)
    requires Neutral(content, true)
    ensures var s := OBJECT + ("{" + content + "})"); Neutral(s, false) && Trimmed(s) && s != ""
  {
    hide Neutral;
    WrapNeutral('{', content, '}');
    Loosen(['{'] + content + ['}']);
    WrapNeutral('(', ['{'] + content + ['}'], ')');
    PlainNeutral("z.object");
    NeutralConcat("z.object", ['('] + (['{'] + content + ['}']) + [')'], false);
    assert OBJECT + ("{" + content + "})") == "z.object" + (['('] + (['{'] + content + ['}']) + [')']);
  }

  lemma ArrayShape(content: string)
    requires Neutral(content, false)
    ensures var s := ARRAY + content + ")"; Neutral(s, false) && Trimmed(s) && s != ""
  {
    hide Neutral;
    Loosen(content);
    WrapNeutral('(', content, ')');
    PlainNeutral("z.array");
    NeutralConcat("z.array", ['('] + content + [')'], false);
    assert ARRAY + content + ")" == "z.array" + (['('] + content + [')']);
  }

  lemma WithSuffix(s: string, modifiers: Option<seq<Modifier>>)
    requires Neutral(s, false) && Trimmed(s) && s != "" && PrintableSuffix(modifiers)
    ensures var t := s + PrintSuffix(modifiers); Neutral(t, false) && Trimmed(t) && t != ""
  {
    hide Neutral;
    hide PrintSuffix;
    SuffixShape(modifiers);
    NeutralConcat(s, PrintSuffix(modifiers), false);
  }

  function PropertyText(p: Property): string { p.key + ": " + Print(p.value) }

  lemma PropertyShape(p: Property)
    requires PlainKey(p.key) && Neutral(Print(p.value), false) && Trimmed(Print(p.value)) && Print(p.value) != ""
    ensures Neutral(PropertyText(p), false) && Trimmed(PropertyText(p)) && PropertyText(p) != ""
  {
    hide Neutral;
    assert KeyChar(p.key[0]);
    PlainNeutral(p.key + ": ");
    NeutralConcat(p.key + ": ", Print(p.value), false);
  }

  lemma {:induction false} PropertiesShape(props: seq<Property>)
    requires PrintableProperties(props)
    ensures Neutral(PrintProperties(props), true)
    decreases props
  {
    hide Neutral;
    PlainNeutral("");
    Loosen("");
    if props != [] {
      PrintShape(props[0].value);
      PropertyShape(props[0]);
      Loosen(PropertyText(props[0]));
      if |props| > 1 {
        PropertiesShape(props[1..]);
        CommaNeutral();
        NeutralConcat(PropertyText(props[0]), ", ", true);
        NeutralConcat(PropertyText(props[0]) + ", ", PrintProperties(props[1..]), true);
      }
    }
  }

  // ---- the round trip ----

  function PropertyTexts(props: seq<Property>): seq<string> {
    seq(|props|, i requires 0 <= i < |props| => PropertyText(props[i]))
  }

  lemma PiecesAtComma(more: string, current: string, s: Scan)
    requires s.quote.None? && s.depth == 0
    ensures Pieces(", " + more, current, s) == [Trim(current)] + Pieces(more, " ", Scan(0, None, ' '))
  {
    var rest := ", " + more;
    assert rest[1..] == " " + more && (" " + more)[1..] == more && "" + [' '] == " ";
    assert Pieces(" " + more, "", Scan(0, None, ',')) == Pieces(more, " ", Scan(0, None, ' '));
  }

  lemma FirstPropertyShape(props: seq<Property>)
    requires PrintableProperties(props) && props != []
    ensures Neutral(PropertyText(props[0]), false) && Trimmed(PropertyText(props[0])) && PropertyText(props[0]) != ""
    ensures PrintableProperties(props[1..])
  {
    hide Neutral;
    hide Print;
    PrintShape(props[0].value);
    PropertyShape(props[0]);
  }

  lemma {:induction false} SplitsPrinted(props: seq<Property>, blank: string, s: Scan)
    requires PrintableProperties(props) && props != [] && Every(blank, IsSpace) && s.quote.None? && s.depth == 0
    ensures Pieces(PrintProperties(props), blank, s) == PropertyTexts(props)
    decreases |props|
  {
    hide Neutral;
    hide Trim;
    hide Print;
    hide PropertyText;
    hide PrintableProperties;
    var text := PropertyText(props[0]);
    FirstPropertyShape(props);
    TrimTrimmed(blank, text);
    assert text == props[0].key + ": " + Print(props[0].value) by { PropertyTextIs(props[0]); }
    if |props| == 1 {
      var after := SplitPasses(text, "", s);
      assert text + "" == text;
      assert Pieces("", blank + text, after) == [text];
    } else {
      var more := PrintProperties(props[1..]);
      var after := SplitPasses(text, ", " + more, s);
      assert PrintProperties(props) == text + (", " + more);
      PiecesAtComma(more, blank + text, after);
      SplitsPrinted(props[1..], " ", Scan(0, None, ' '));
      assert PropertyTexts(props) == [text] + PropertyTexts(props[1..]);
    }
  }

  lemma PropertyTextIs(p: Property)
    ensures PropertyText(p) == p.key + ": " + Print(p.value)
  {
    hide Print;
  }

  lemma {:induction false} KeyHasNoQuotes(key: string)
    requires Every(key, KeyChar)
    ensures RemoveQuotes(key) == key && ':' !in key
    decreases |key|
  {
    if key != "" {
      assert KeyChar(key[0]);
      KeyHasNoQuotes(key[1..]);
    }
  }

  lemma PropertyParts(p: Property)
    requires PlainKey(p.key) && Print(p.value) != "" && Trimmed(Print(p.value))
    ensures var text := PropertyText(p);
            var colon := Find(text, ':');
            && colon < |text|
            && RemoveQuotes(Trim(text[..colon])) == p.key && Trim(text[colon + 1..]) == Print(p.value)
  {
    hide Print;
    var text := PropertyText(p);
    KeyHasNoQuotes(p.key);
    FindAfter(p.key, ':', " " + Print(p.value));
    assert text == p.key + [':'] + (" " + Print(p.value));
    assert text[..|p.key|] == p.key && text[|p.key| + 1..] == " " + Print(p.value);
    assert KeyChar(p.key[0]) && KeyChar(p.key[|p.key| - 1]);
    TrimIdentity(p.key);
    TrimTrimmed(" ", Print(p.value));
  }

  lemma {:induction false} EachRoundTrip(props: seq<Property>, done: seq<Property>, bound: nat)
    requires PrintableProperties(props)
    requires forall i | 0 <= i < |props| :: |PropertyText(props[i])| <= bound
    requires forall i | 0 <= i < |props| :: ParseZodType(Print(props[i].value)) == Ok(Meant(props[i].value))
    ensures ParseEach(PropertyTexts(props), done, bound) == Ok(MeantProperties(props, done))
    decreases |props|
  {
    hide Neutral;
    hide Trim;
    hide Print;
    hide PropertyText;
    hide ParseZodType;
    hide RemoveQuotes;
    hide PutProperty;
    hide Meant;
    if props != [] {
      var p := props[0];
      PrintShape(p.value);
      PropertyParts(p);
      assert PropertyTexts(props)[1..] == PropertyTexts(props[1..]);
      EachRoundTrip(props[1..], PutProperty(done, p.key, Meant(p.value)), bound);
    }
  }

  lemma {:induction false} PropertiesRoundTrip(props: seq<Property>)
    requires PrintableProperties(props)
    ensures ParseObjectProperties(PrintProperties(props)) == Ok(MeantProperties(props, []))
    decreases props
  {
    hide Neutral;
    hide Print;
    hide ParseZodType;
    hide MeantProperties;
    var content := PrintProperties(props);
    forall i | 0 <= i < |props| ensures ParseZodType(Print(props[i].value)) == Ok(Meant(props[i].value)) {
      TypeIsRead(props[i].value);
    }
    if props == [] {
      assert SplitProperties(content) == PropertyTexts(props);
    } else {
      SplitsPrinted(props, "", SCAN_START);
    }
    var pieces := SplitProperties(content);
    forall i | 0 <= i < |props| ensures |PropertyText(props[i])| <= |content| {
      assert pieces[i] == PropertyText(props[i]);
    }
    EachRoundTrip(props, [], |content|);
  }

  /** Every printed type is read as it means. */
  lemma {:induction false} TypeIsRead(t: TypeInfo)
    requires Printable(t)
    ensures ParseZodType(Print(t)) == Ok(Meant(t))
    decreases t
  {
    hide Neutral;
    hide IsAllowed;
    hide ParseZodType;
    hide ParseArray;
    match t
    case Base(base, baseArgs, mods) =>
      BaseTypeRoundTrip(base, baseArgs, mods);
    case NestedObject(props, modifiers) =>
      PropertiesRoundTrip(props);
      ObjectRoundTrip(props, modifiers);
    case ArrayOfObjects(props, modifiers) =>
      PropertiesRoundTrip(props);
      ArrayOfObjectsRoundTrip(props, None, modifiers);
      assert PrintSchema(props) + "" == PrintSchema(props);
    case SimpleArray(inner, modifiers) =>
      if inner.NestedObject? {
        PropertiesRoundTrip(inner.properties);
        ArrayOfObjectsRoundTrip(inner.properties, inner.modifiers, modifiers);
      } else {
        TypeIsRead(inner);
        PrintShape(inner);
        SimpleArrayParses(inner);
        ArrayRoundTrip(Print(inner), SimpleArray(Meant(inner), None), modifiers);
      }
  }

  /** Parsing undoes printing exactly on the faithful types of the grammar. */
  lemma TypeRoundTrip(t: TypeInfo)
    requires Printable(t)
    ensures ParseZodType(Print(t)) == Ok(t) <==> Faithful(t)
  {
    hide ParseZodType;
    hide Print;
    hide Meant;
    TypeIsRead(t);
    MeantIff(t);
  }

  lemma BaseTypeRoundTrip(base: string, baseArgs: Option<seq<Arg>>, mods: seq<Modifier>)
    requires Printable(Base(base, baseArgs, mods))
    ensures ParseZodType(Print(Base(base, baseArgs, mods))) == Ok(Meant(Base(base, baseArgs, mods)))
  {
    hide ParseBase;
    hide Split;
    hide Join;
    hide MeantArgs;
    hide MeantModifiers;
    BaseIsNotNested(base, baseArgs, mods);
    BaseRoundTrip(base, baseArgs, mods);
  }

  lemma ObjectRoundTrip(props: seq<Property>, modifiers: Option<seq<Modifier>>)
    requires PrintableProperties(props) && PrintableSuffix(modifiers)
    requires ParseObjectProperties(PrintProperties(props)) == Ok(MeantProperties(props, []))
    ensures ParseZodType(PrintSchema(props) + PrintSuffix(modifiers)) == Ok(Meant(NestedObject(props, modifiers)))
  {
    hide Neutral;
    hide IsAllowed;
    hide ParseObjectProperties;
    hide ObjectContent;
    hide ExtractObjectWithModifiers;
    hide PrintProperties;
    hide MeantProperties;
    hide MeantModifiers;
    var s := PrintSchema(props) + PrintSuffix(modifiers);
    assert OBJECT <= s;
    PropertiesShape(props);
    ExtractsObject(PrintProperties(props), modifiers);
    ObjectContentOf(PrintProperties(props));
    if modifiers.None? { assert s == PrintSchema(props); }
  }

  /** An array of objects, whose objects may have modifiers of their own: these leave no trace. */
  lemma ArrayOfObjectsRoundTrip(props: seq<Property>, dropped: Option<seq<Modifier>>, modifiers: Option<seq<Modifier>>)
    requires PrintableProperties(props) && PrintableSuffix(dropped) && PrintableSuffix(modifiers) && Elements(props)
    requires ParseObjectProperties(PrintProperties(props)) == Ok(MeantProperties(props, []))
    ensures ParseZodType(ARRAY + (PrintSchema(props) + PrintSuffix(dropped)) + ")" + PrintSuffix(modifiers))
         == Ok(ArrayOfObjects(MeantProperties(props, []), MeantSuffix(modifiers)))
  {
    hide Neutral;
    hide IsAllowed;
    hide PrintProperties;
    hide ParseZodType;
    hide ParseObjectProperties;
    hide ValidateProperties;
    hide MeantProperties;
    hide MeantModifiers;
    hide Join;
    var suffix := PrintSuffix(dropped);
    PropertiesShape(props);
    ObjectShape(PrintProperties(props));
    WithSuffix(PrintSchema(props), dropped);
    assert '}' !in suffix by { if dropped.Some? { JoinHasNoBrace(dropped.value); } }
    ArrayOfModifiedObjects(props, suffix);
    ArrayRoundTrip(PrintSchema(props) + suffix, ArrayOfObjects(MeantProperties(props, []), None), modifiers);
  }

  lemma SimpleArrayParses(inner: TypeInfo)
    requires ParseZodType(Print(inner)) == Ok(Meant(inner)) && Printable(inner) && !inner.NestedObject?
    requires Trimmed(Print(inner)) && Print(inner) != ""
    ensures ParseArray(ARRAY + Print(inner) + ")") == Ok(SimpleArray(Meant(inner), None))
  {
    hide ParseZodType;
    hide ArrayContent;
    hide Trim;
    hide Meant;
    ArrayContentOf(Print(inner));
    TrimIdentity(Print(inner));
    NotAnObject(inner);
  }

  lemma NotAnObject(t: TypeInfo)
    requires Printable(t) && !t.NestedObject?
    ensures !(OBJECT <= Print(t))
  {
    if t.Base? {
      BaseIsNotNested(t.base, t.baseArgs, t.mods);
    } else {
      assert Print(t)[2] == 'a';
    }
  }

  lemma ArrayRoundTrip(content: string, bare: TypeInfo, modifiers: Option<seq<Modifier>>)
    requires Neutral(content, false) && PrintableSuffix(modifiers)
    requires bare.ArrayOfObjects? || bare.SimpleArray?
    requires bare.modifiers.None? && ParseArray(ARRAY + content + ")") == Ok(bare)
    ensures ParseZodType(ARRAY + content + ")" + PrintSuffix(modifiers))
         == Ok(if modifiers.None? then bare else WithModifiers(bare, MeantModifiers(modifiers.value)))
  {
    hide Neutral;
    hide IsAllowed;
    hide ParseArray;
    hide ParseBase;
    hide ParseObject;
    hide Split;
    hide Join;
    hide PrintModifiers;
    hide ExtractArrayWithModifiers;
    var s := ARRAY + content + ")" + PrintSuffix(modifiers);
    assert s == ARRAY + (content + ")" + PrintSuffix(modifiers));
    assert s[2] == 'a' && s[..8] == ARRAY;
    ExtractsArray(content, modifiers);
    if modifiers.None? { assert s == ARRAY + content + ")"; }
  }

  /** The same for a whole schema text. */
  lemma SchemaRoundTrip(props: seq<Property>)
    requires PrintableProperties(props)
    ensures ParseSchemaStructure(PrintSchema(props)) == Ok(MeantProperties(props, []))
    ensures ParseSchemaStructure(PrintSchema(props)) == Ok(props) <==> FaithfulProperties(props)
  {
    hide ParseObjectProperties;
    hide ObjectContent;
    hide PrintProperties;
    hide MeantProperties;
    PropertiesRoundTrip(props);
    ObjectContentOf(PrintProperties(props));
    MeantPropertiesIff(props);
  }

  // ---- objects with modifiers inside arrays ----

  lemma {:induction false} LastCloseBefore(s: string, lo: nat, n: nat, hi: nat)
    requires lo <= n <= hi <= |s| && forall i | n <= i < hi :: s[i] != '}'
    ensures LastClose(s, lo, hi) == LastClose(s, lo, n)
    decreases hi
  {
    if n < hi { LastCloseBefore(s, lo, n, hi - 1); }
  }

  lemma {:induction false} JoinHasNoBrace(ms: seq<Modifier>)
    requires PrintableModifiers(ms)
    ensures '}' !in Join(PrintModifiers(ms), ".")
    decreases |ms|
  {
    hide Neutral;
    if ms != [] {
      var m, parts := ms[0], PrintModifiers(ms);
      ArgsShape(m.args);
      assert forall i | 0 <= i < |PrintArgList(m.args)| :: InnerChar(PrintArgList(m.args)[i]);
      assert forall i | 0 <= i < |m.name| :: IsWordChar(m.name[i]);
      assert '}' !in m.name && '}' !in PrintArgList(m.args);
      assert '}' !in parts[0];
      assert parts[1..] == PrintModifiers(ms[1..]);
      JoinHasNoBrace(ms[1..]);
    }
  }

  /** The contents of an object are found with modifiers behind it, too. */
  lemma ObjectContentBefore(content: string, suffix: string)
    requires '}' !in suffix
    ensures ObjectContent(OBJECT + ("{" + content + "})") + suffix) == Some(content)
  {
    hide LastClose;
    var text := OBJECT + ("{" + content + "})");
    var s := text + suffix;
    var n := |text|;
    assert s[9..][0] == '{' && Blanks(s[9..]) == 0;
    forall i | n - 1 <= i < |s| ensures s[i] != '}' {
      if i >= n { assert s[i] == suffix[i - n] && suffix[i - n] in suffix; }
    }
    LastCloseBefore(s, 10, n - 1, |s|);
    assert s[n - 2] == '}' && s[n - 1..][0] == ')' && Blanks(s[n - 1..]) == 0;
    LastCloseHit(s, 10, n - 1);
    assert s[10..n - 2] == content;
    assert ObjectContentHere(s) == Some(content);
  }

  lemma LastCloseHit(s: string, lo: nat, hi: nat)
    requires lo < hi <= |s| && ClosesObject(s, hi - 1)
    ensures LastClose(s, lo, hi) == Some(hi - 1)
  {
  }

  lemma ArrayOfModifiedObjects(props: seq<Property>, suffix: string)
    requires ParseObjectProperties(PrintProperties(props)) == Ok(MeantProperties(props, [])) && Elements(props)
    requires Trimmed(PrintSchema(props) + suffix) && '}' !in suffix
    ensures ParseArray(ARRAY + (PrintSchema(props) + suffix) + ")")
         == Ok(ArrayOfObjects(MeantProperties(props, []), None))
  {
    hide MeantProperties;
    hide ParseObjectProperties;
    hide ObjectContent;
    hide ArrayContent;
    hide PrintProperties;
    hide Trim;
    hide ValidateProperties;
    ArrayContentOf(PrintSchema(props) + suffix);
    TrimIdentity(PrintSchema(props) + suffix);
    ObjectContentBefore(PrintProperties(props), suffix);
    assert OBJECT <= PrintSchema(props) + suffix;
  }
}
