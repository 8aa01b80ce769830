/** The cleaning step before parsing: comments go, white space collapses, tidy text stays as it is. */
module ZodClean {
  import opened Wrappers
  import opened ZodText
  import opened ZodParser
  import opened ZodPrint
  import opened ZodMeaning
  import opened ZodRoundTrip

  /** Length of the text before the first line break. */
  function LineLength(s: string): (n: nat)
    ensures n <= |s| && forall i | 0 <= i < n :: !IsLineBreak(s[i])
    ensures n < |s| ==> IsLineBreak(s[n])
  {
    if s == "" || IsLineBreak(s[0]) then 0 else LineLength(s[1..]) + 1
  }

  function RemoveLineComments(s: string): string
    decreases |s|
  {
    if s == "" then ""
    else if "//" <= s && LineLength(s) > 0 then RemoveLineComments(s[LineLength(s)..])
    else [s[0]] + RemoveLineComments(s[1..])
  }

  /** How far a comment reaches that has begun before `s`. */
  function CommentEnd(s: string): (end: Option<nat>)
    ensures end.Some? ==> end.value <= |s|
  {
    if s == "" then None
    else if "*/" <= s then Some(2)
    else
      var rest := CommentEnd(s[1..]);
      if rest.None? then None else Some(rest.value + 1)
  }

  function RemoveBlockComments(s: string): string
    decreases |s|
  {
    if s == "" then ""
    else
      var end := if "/*" <= s then CommentEnd(s[2..]) else None;
      if end.Some? then RemoveBlockComments(s[2 + end.value..]) else [s[0]] + RemoveBlockComments(s[1..])
  }

  function CollapseSpaces(s: string): string
    decreases |s|
  {
    if s == "" then ""
    else if Blanks(s) > 0 then " " + CollapseSpaces(s[Blanks(s)..])
    else [s[0]] + CollapseSpaces(s[1..])
  }

  function CleanSchemaString(schema: string): string {
    Trim(CollapseSpaces(RemoveBlockComments(RemoveLineComments(schema))))
  }

  // ---- what is removed ----

  lemma {:induction false} LineLengthOf(c: string, rest: string)
    requires (forall i | 0 <= i < |c| :: !IsLineBreak(c[i])) && (rest != "" ==> IsLineBreak(rest[0]))
    ensures LineLength(c + rest) == |c|
    decreases |c|
  {
    if c == "" {
      assert c + rest == rest;
    } else {
      assert (c + rest)[1..] == c[1..] + rest;
      LineLengthOf(c[1..], rest);
    }
  }

  /** A comment goes up to the end of its line, and only that. */
  lemma {:induction false} LineCommentGoes(a: string, c: string, rest: string)
    requires '/' !in a && (forall i | 0 <= i < |c| :: !IsLineBreak(c[i])) && (rest != "" ==> IsLineBreak(rest[0]))
    ensures RemoveLineComments(a + ("//" + (c + rest))) == a + RemoveLineComments(rest)
    decreases |a|
  {
    var s := a + ("//" + (c + rest));
    if a == "" {
      assert s == ("//" + c) + rest && s[..2] == "//";
      LineLengthOf("//" + c, rest);
      assert s[|"//" + c|..] == rest;
    } else {
      assert s[0] == a[0] && s[1..] == a[1..] + ("//" + (c + rest));
      LineCommentGoes(a[1..], c, rest);
    }
  }

  lemma {:induction false} CommentEndOf(c: string, rest: string)
    requires '*' !in c
    ensures CommentEnd(c + ("*/" + rest)) == Some(|c| + 2)
    decreases |c|
  {
    var s := c + ("*/" + rest);
    if c == "" {
      assert s == "*/" + rest && "*/" <= s;
    } else {
      assert s[0] == c[0] && s[1..] == c[1..] + ("*/" + rest);
      CommentEndOf(c[1..], rest);
    }
  }

  lemma CommentGoes(c: string, rest: string)
    requires '*' !in c
    ensures RemoveBlockComments("/*" + (c + ("*/" + rest))) == RemoveBlockComments(rest)
  {
    hide CommentEnd;
    var tail := c + ("*/" + rest);
    var s := "/*" + tail;
    assert s[2..] == tail;
    CommentEndOf(c, rest);
    assert s[2 + (|c| + 2)..] == rest;
  }

  /** A comment between its marks goes, and only that. */
  lemma {:induction false} BlockCommentGoes(a: string, c: string, rest: string)
    requires '/' !in a && '*' !in c
    ensures RemoveBlockComments(a + ("/*" + (c + ("*/" + rest)))) == a + RemoveBlockComments(rest)
    decreases |a|
  {
    hide CommentEnd;
    var comment := "/*" + (c + ("*/" + rest));
    if a == "" {
      assert a + comment == comment;
      CommentGoes(c, rest);
    } else {
      assert (a + comment)[0] == a[0] && (a + comment)[1..] == a[1..] + comment;
      BlockCommentGoes(a[1..], c, rest);
    }
  }

  lemma BlanksFirst(blank: string, rest: string)
    requires blank != "" && Every(blank, IsSpace) && rest != "" && !IsSpace(rest[0])
    ensures CollapseSpaces(blank + rest) == " " + CollapseSpaces(rest)
  {
    hide IsSpace;
    BlanksOf(blank, rest);
    assert (blank + rest)[|blank|..] == rest;
  }

  lemma TextFirst(s: string)
    requires s != "" && !IsSpace(s[0])
    ensures CollapseSpaces(s) == [s[0]] + CollapseSpaces(s[1..])
  {
    hide IsSpace;
  }

  /** White space between other text becomes one blank. */
  lemma {:induction false} BlanksCollapse(a: string, blank: string, rest: string)
    requires (forall i | 0 <= i < |a| :: !IsSpace(a[i])) && blank != "" && Every(blank, IsSpace)
    requires rest != "" && !IsSpace(rest[0])
    ensures CollapseSpaces(a + (blank + rest)) == a + (" " + CollapseSpaces(rest))
    decreases |a|
  {
    hide IsSpace;
    hide CollapseSpaces;
    hide Every;
    var tail := blank + rest;
    BlanksFirst(blank, rest);
    if a == "" {
      assert a + tail == tail;
    } else {
      assert (a + tail)[0] == a[0] && (a + tail)[1..] == a[1..] + tail;
      TextFirst(a + tail);
      BlanksCollapse(a[1..], blank, rest);
    }
  }

  // ---- tidy text ----

  /** No slash, and white space only as single blanks. */
  predicate Tidy(s: string) {
    && '/' !in s
    && (forall i | 0 <= i < |s| :: IsSpace(s[i]) ==> s[i] == ' ')
    && (forall i | 0 <= i < |s| - 1 :: s[i] == ' ' ==> s[i + 1] != ' ')
  }

  lemma TidyTail(s: string)
    requires Tidy(s) && s != ""
    ensures Tidy(s[1..])
  {
    var t := s[1..];
    forall i | 0 <= i < |t| - 1 ensures t[i] == ' ' ==> t[i + 1] != ' ' {
      assert s[i + 1] == t[i] && s[i + 1 + 1] == t[i + 1];
    }
  }

  lemma {:induction false} TidyHasNoComments(s: string)
    requires '/' !in s
    ensures RemoveLineComments(s) == s && RemoveBlockComments(s) == s
    decreases |s|
  {
    if s != "" {
      assert s[0] != '/';
      TidyHasNoComments(s[1..]);
    }
  }

  lemma {:induction false} TidyCollapses(s: string)
    requires Tidy(s)
    ensures CollapseSpaces(s) == s
    decreases |s|
  {
    if s != "" {
      TidyTail(s);
      TidyCollapses(s[1..]);
      if IsSpace(s[0]) {
        assert |s| > 1 ==> !IsSpace(s[1]) by { if |s| > 1 { assert s[0] == ' ' && s[0 + 1] != ' '; } }
        assert Blanks(s[1..]) == 0;
      }
    }
  }

  lemma CleanLeavesTidyText(s: string)
    requires Tidy(s) && Trimmed(s)
    ensures CleanSchemaString(s) == s
  {
    TidyHasNoComments(s);
    TidyCollapses(s);
    TrimIdentity(s);
  }

  // ---- printed schemas are tidy ----

  lemma TidyConcat(a: string, b: string)
    requires Tidy(a) && Tidy(b)
    requires a != "" && b != "" ==> a[|a| - 1] != ' ' || b[0] != ' '
    ensures Tidy(a + b)
  {
    var s := a + b;
    forall i | 0 <= i < |s| - 1 ensures s[i] == ' ' ==> s[i + 1] != ' ' {
      if i + 1 < |a| { assert s[i] == a[i] && s[i + 1] == a[i + 1]; }
      else if i >= |a| { assert s[i] == b[i - |a|] && s[i + 1] == b[i - |a| + 1]; }
    }
  }

  predicate TidyArg(a: Arg) {
    match a
    case Str(s) => Tidy(s)
    case Items(items) => forall i | 0 <= i < |items| :: Tidy(items[i])
    case _ => true
  }

  predicate TidyModifiers(ms: seq<Modifier>) {
    forall i | 0 <= i < |ms| :: forall j | 0 <= j < |ms[i].args| :: TidyArg(ms[i].args[j])
  }

  predicate TidySuffix(modifiers: Option<seq<Modifier>>) { modifiers.Some? ==> TidyModifiers(modifiers.value) }

  /** All literals and keys of the type are tidy. */
  predicate TidyType(t: TypeInfo)
    decreases t
  {
    match t
    case Base(_, baseArgs, mods) =>
      (baseArgs.Some? ==> forall j | 0 <= j < |baseArgs.value| :: TidyArg(baseArgs.value[j])) && TidyModifiers(mods)
    case NestedObject(props, modifiers) => TidyProperties(props) && TidySuffix(modifiers)
    case ArrayOfObjects(props, modifiers) => TidyProperties(props) && TidySuffix(modifiers)
    case SimpleArray(inner, modifiers) => TidyType(inner) && TidySuffix(modifiers)
  }

  predicate TidyProperties(props: seq<Property>)
    decreases props
  {
    forall i | 0 <= i < |props| :: Tidy(props[i].key) && TidyType(props[i].value)
  }

  lemma QuotedTidy(s: string)
    requires Tidy(s)
    ensures Tidy(PrintQuoted(s))
  {
    TidyConcat("\"", s);
    TidyConcat("\"" + s, "\"");
  }

  lemma {:induction false} ItemsTidy(items: seq<string>)
    requires forall i | 0 <= i < |items| :: Tidy(items[i])
    ensures Tidy(PrintItems(items)) && (items != [] ==> PrintItems(items) != "" && PrintItems(items)[0] == '"')
    decreases |items|
  {
    hide Tidy;
    assert Tidy("") && Tidy(", ") by { ConstantsAreTidy(); }
    if items != [] {
      QuotedTidy(items[0]);
      if |items| > 1 {
        ItemsTidy(items[1..]);
        TidyConcat(PrintQuoted(items[0]), ", ");
        TidyConcat(PrintQuoted(items[0]) + ", ", PrintItems(items[1..]));
      }
    }
  }

  lemma ConstantsAreTidy()
    ensures Tidy("") && Tidy(", ") && Tidy("[") && Tidy("]") && Tidy("(") && Tidy(")") && Tidy("{") && Tidy("})")
    ensures Tidy("z") && Tidy(".") && Tidy(": ") && Tidy(OBJECT) && Tidy(ARRAY)
  {
  }

  lemma {:induction false} WordsAreTidy(s: string)
    requires Every(s, IsWordChar)
    ensures Tidy(s)
  {
  }

  lemma ArgTidy(a: Arg)
    requires PrintableArg(a) && TidyArg(a)
    ensures Tidy(PrintArg(a))
  {
    hide Tidy;
    ConstantsAreTidy();
    match a {
      case Num(n) =>
        assert Every(PrintDigits(n), IsWordChar);
        WordsAreTidy(PrintDigits(n));
      case Str(s) => QuotedTidy(s);
      case Items(items) =>
        ItemsTidy(items);
        TidyConcat("[", PrintItems(items));
        TidyConcat("[" + PrintItems(items), "]");
    }
  }

  lemma {:induction false} ArgListTidy(args: seq<Arg>)
    requires forall j | 0 <= j < |args| :: PrintableArg(args[j]) && TidyArg(args[j])
    ensures Tidy(PrintArgList(args))
    decreases |args|
  {
    hide Tidy;
    hide PrintArg;
    hide TidyArg;
    ConstantsAreTidy();
    if args != [] {
      ArgTidy(args[0]);
      if |args| > 1 {
        ArgListTidy(args[1..]);
        ArgListShape(args[1..]);
        ArgShape(args[1]);
        TidyConcat(PrintArg(args[0]), ", ");
        TidyConcat(PrintArg(args[0]) + ", ", PrintArgList(args[1..]));
      }
    }
  }

  lemma ArgsTidy(args: seq<Arg>)
    requires PrintableArgs(args) && forall j | 0 <= j < |args| :: TidyArg(args[j])
    ensures Tidy(PrintArgs(args))
  {
    hide Tidy;
    hide PrintArgList;
    ConstantsAreTidy();
    ListedIsPrintable(args);
    ArgListTidy(args);
    TidyConcat("(", PrintArgList(args));
    TidyConcat("(" + PrintArgList(args), ")");
  }

  lemma ModifierTidy(m: Modifier)
    requires IsWord(m.name) && PrintableArgs(m.args) && forall j | 0 <= j < |m.args| :: TidyArg(m.args[j])
    ensures Tidy(PrintModifier(m))
  {
    hide Tidy;
    ArgsTidy(m.args);
    WordsAreTidy(m.name);
    assert PrintArgs(m.args)[0] == '(';
    TidyConcat(m.name, PrintArgs(m.args));
  }

  lemma {:induction false} JoinTidy(parts: seq<string>)
    requires forall i | 0 <= i < |parts| :: Tidy(parts[i])
    ensures Tidy(Join(parts, "."))
    decreases |parts|
  {
    hide Tidy;
    ConstantsAreTidy();
    if |parts| > 1 {
      JoinTidy(parts[1..]);
      TidyConcat(parts[0], ".");
      TidyConcat(parts[0] + ".", Join(parts[1..], "."));
    }
  }

  lemma ModifiersTidy(ms: seq<Modifier>)
    requires PrintableModifiers(ms) && TidyModifiers(ms)
    ensures forall i | 0 <= i < |ms| :: Tidy(PrintModifiers(ms)[i])
  {
    hide Tidy;
    forall i | 0 <= i < |ms| ensures Tidy(PrintModifiers(ms)[i]) { ModifierTidy(ms[i]); }
  }

  lemma SuffixTidy(s: string, modifiers: Option<seq<Modifier>>)
    requires Tidy(s) && PrintableSuffix(modifiers) && TidySuffix(modifiers)
    ensures Tidy(s + PrintSuffix(modifiers))
  {
    hide Tidy;
    hide IsAllowed;
    ConstantsAreTidy();
    if modifiers.Some? {
      ModifiersTidy(modifiers.value);
      JoinTidy(PrintModifiers(modifiers.value));
      TidyConcat(".", Join(PrintModifiers(modifiers.value), "."));
    }
    TidyConcat(s, PrintSuffix(modifiers));
  }

  lemma BaseTidy(base: string, baseArgs: Option<seq<Arg>>, mods: seq<Modifier>)
    requires Printable(Base(base, baseArgs, mods)) && TidyType(Base(base, baseArgs, mods))
    ensures Tidy(Print(Base(base, baseArgs, mods)))
  {
    hide Tidy;
    ConstantsAreTidy();
    WordsAreTidy(base);
    if baseArgs.Some? {
      ArgsTidy(baseArgs.value);
      TidyConcat(base, PrintArgs(baseArgs.value));
    } else {
      assert base + "" == base;
    }
    ModifiersTidy(mods);
    var parts := BaseParts(base, baseArgs, mods);
    forall i | 0 <= i < |parts| ensures Tidy(parts[i]) {
      if i >= 2 { assert parts[i] == PrintModifiers(mods)[i - 2]; }
    }
    JoinTidy(parts);
  }

  lemma ObjectTidy(content: string)
    requires Tidy(content)
    ensures Tidy(OBJECT + ("{" + content + "})"))
  {
    hide Tidy;
    ConstantsAreTidy();
    TidyConcat("{", content);
    TidyConcat("{" + content, "})");
    TidyConcat(OBJECT, "{" + content + "})");
  }

  lemma ArrayTidy(content: string)
    requires Tidy(content)
    ensures Tidy(ARRAY + content + ")")
  {
    hide Tidy;
    ConstantsAreTidy();
    TidyConcat(ARRAY, content);
    TidyConcat(ARRAY + content, ")");
  }

  lemma {:induction false} PrintTidy(t: TypeInfo)
    requires Printable(t) && TidyType(t)
    ensures Tidy(Print(t))
    decreases t
  {
    hide Tidy;
    hide IsAllowed;
    match t
    case Base(base, baseArgs, mods) => BaseTidy(base, baseArgs, mods);
    case NestedObject(props, modifiers) =>
      PropertiesTidy(props);
      ObjectTidy(PrintProperties(props));
      SuffixTidy(OBJECT + ("{" + PrintProperties(props) + "})"), modifiers);
    case ArrayOfObjects(props, modifiers) =>
      PropertiesTidy(props);
      ObjectTidy(PrintProperties(props));
      ArrayTidy(OBJECT + ("{" + PrintProperties(props) + "})"));
      SuffixTidy(ARRAY + (OBJECT + ("{" + PrintProperties(props) + "})")) + ")", modifiers);
    case SimpleArray(inner, modifiers) =>
      PrintTidy(inner);
      ArrayTidy(Print(inner));
      SuffixTidy(ARRAY + Print(inner) + ")", modifiers);
  }

  lemma {:induction false} PropertiesTidy(props: seq<Property>)
    requires PrintableProperties(props) && TidyProperties(props)
    ensures Tidy(PrintProperties(props))
            && (props != [] ==> PrintProperties(props) != "" && PrintProperties(props)[0] != ' ')
    decreases props
  {
    hide Tidy;
    hide Neutral;
    ConstantsAreTidy();
    if props != [] {
      var p := props[0];
      assert KeyChar(p.key[0]);
      PrintTidy(p.value);
      PrintShape(p.value);
      TidyConcat(p.key, ": ");
      TidyConcat(p.key + ": ", Print(p.value));
      if |props| > 1 {
        PropertiesTidy(props[1..]);
        TidyConcat(PropertyText(p), ", ");
        TidyConcat(PropertyText(p) + ", ", PrintProperties(props[1..]));
      }
    }
  }

  /** `parseZodSchema` up to building: a printed schema is read as it means, and comes back exactly when it is
      faithful. */
  lemma CleanedSchemaRoundTrip(props: seq<Property>)
    requires PrintableProperties(props) && TidyProperties(props)
    ensures ParseSchemaStructure(CleanSchemaString(PrintSchema(props))) == Ok(MeantProperties(props, []))
    ensures ParseSchemaStructure(CleanSchemaString(PrintSchema(props))) == Ok(props) <==> FaithfulProperties(props)
  {
    hide Tidy;
    hide Neutral;
    hide Trim;
    hide MeantProperties;
    PropertiesTidy(props);
    ObjectTidy(PrintProperties(props));
    PropertiesShape(props);
    ObjectShape(PrintProperties(props));
    CleanLeavesTidyText(PrintSchema(props));
    SchemaRoundTrip(props);
  }
}
