/** What the schema parser refuses. */
module ZodRefusals {
  import opened Wrappers
  import opened ZodText
  import opened ZodParser
  import opened ZodPrint
  import opened ZodMeaning
  import opened ZodRoundTrip
  import opened ZodBuild

  // ---- validation inside arrays ----

  predicate AllAllowed(ms: seq<Modifier>) { forall i | 0 <= i < |ms| :: IsAllowed(ms[i].name) }

  /** A base type whose name and modifiers are all on the list. */
  predicate IsValid(t: TypeInfo) { t.Base? ==> IsAllowed(t.base) && AllAllowed(t.mods) }

  predicate AllValid(ts: seq<TypeInfo>) { forall i | 0 <= i < |ts| :: IsValid(ts[i]) }

  lemma ValidConcat(a: seq<TypeInfo>, b: seq<TypeInfo>)
    ensures AllValid(a + b) <==> AllValid(a) && AllValid(b)
  {
    hide IsValid;
    assert forall i | 0 <= i < |a| :: (a + b)[i] == a[i];
    assert forall i | 0 <= i < |b| :: (a + b)[|a| + i] == b[i];
  }

  /** A type is valid exactly when all its base types, however deep, use only names on the list. */
  lemma {:induction false} ValidatesIff(t: TypeInfo)
    ensures ValidateTypeInfo(t).None? <==> AllValid(Bases(t))
    decreases t
  {
    hide IsAllowed;
    match t
    case NestedObject(props, _) => PropertiesValidateIff(props);
    case ArrayOfObjects(props, _) => PropertiesValidateIff(props);
    case SimpleArray(inner, _) => ValidatesIff(inner);
    case Base(_, _, _) => assert Bases(t) == [t] && Bases(t)[0] == t;
  }

  lemma {:induction false} PropertiesValidateIff(props: seq<Property>)
    ensures ValidateProperties(props).None? <==> AllValid(BasesOf(props))
    decreases props
  {
    hide AllValid;
    hide ValidateTypeInfo;
    hide Bases;
    if props == [] {
      NothingInvalid();
    } else {
      ValidatesIff(props[0].value);
      PropertiesValidateIff(props[1..]);
      ValidConcat(Bases(props[0].value), BasesOf(props[1..]));
    }
  }

  lemma NothingInvalid()
    ensures AllValid([])
  {
  }

  /** An array of objects is refused when what is read of its objects is not valid. */
  lemma InvalidElementsAreRefused(props: seq<Property>)
    requires PrintableProperties(props) && !Elements(props)
    ensures ParseArray(ARRAY + PrintSchema(props) + ")") == Err(ValidateProperties(MeantProperties(props, [])).value)
  {
    hide ParseObjectProperties;
    hide ObjectContent;
    hide ArrayContent;
    hide PrintProperties;
    hide Trim;
    hide ValidateProperties;
    hide MeantProperties;
    hide Neutral;
    PropertiesRoundTrip(props);
    PropertiesShape(props);
    ObjectShape(PrintProperties(props));
    ArrayContentOf(PrintSchema(props));
    TrimIdentity(PrintSchema(props));
    ObjectContentOf(PrintProperties(props));
    assert OBJECT <= PrintSchema(props);
  }

  // ---- modifiers ----

  lemma {:induction false} ArrayModifiersIff(ms: seq<Modifier>)
    requires PrintableModifiers(ms)
    ensures ParseArrayModifiers(PrintModifiers(ms))
         == if AllAllowed(ms) then Ok(MeantModifiers(ms)) else Err(UnsupportedModifier)
    decreases |ms|
  {
    hide IsAllowed;
    hide Neutral;
    hide MatchCall;
    hide ParseArguments;
    hide PrintArgs;
    if ms == [] {
      assert MeantModifiers(ms) == [];
    } else {
      var m, texts := ms[0], PrintModifiers(ms);
      assert texts[0] == PrintModifier(m) && texts[1..] == PrintModifiers(ms[1..]);
      CallRoundTrip(m.name, m.args);
      ArgsRoundTrip(m.args);
      ArrayModifiersIff(ms[1..]);
      MeantModifiersHead(ms);
      AllowedTail(ms);
    }
  }

  lemma AllowedTail(ms: seq<Modifier>)
    requires ms != []
    ensures AllAllowed(ms) <==> IsAllowed(ms[0].name) && AllAllowed(ms[1..])
  {
    hide IsAllowed;
    assert forall i | 1 <= i < |ms| :: ms[i] == ms[1..][i - 1];
    assert forall i | 0 <= i < |ms[1..]| :: ms[1..][i] == ms[i + 1];
  }

  /** The modifiers of an object are read exactly when all their names are on the list. */
  lemma {:induction false} ObjectModifiersIff(ms: seq<Modifier>)
    requires PrintableModifiers(ms)
    ensures ParseObjectModifiers(Join(PrintModifiers(ms), "."))
         == if AllAllowed(ms) then Ok(MeantModifiers(ms)) else Err(UnsupportedModifier)
    decreases |ms|
  {
    hide IsAllowed;
    hide NextModifier;
    hide PrintModifier;
    hide AllAllowed;
    if ms == [] {
      assert WordLength("") == 0 && MeantModifiers(ms) == [];
      NoneDisallowed();
    } else {
      var m, parts := ms[0], PrintModifiers(ms);
      assert parts[1..] == PrintModifiers(ms[1..]);
      var more := Join(parts[1..], ".");
      var rest := if |ms| == 1 then "" else "." + more;
      var text := Join(parts, ".");
      assert text == PrintModifier(m) + rest;
      NextModifierReads(m, rest);
      ObjectModifiersIff(ms[1..]);
      assert text[|PrintModifier(m)| + (if rest == "" then 0 else 1)..] == more;
      MeantModifiersHead(ms);
      AllowedTail(ms);
    }
  }

  lemma NoneDisallowed()
    ensures AllAllowed([])
  {
  }

  /** An object with a modifier that is not on the list is refused. */
  lemma ObjectSuffixIsRefused(props: seq<Property>, ms: seq<Modifier>)
    requires PrintableProperties(props) && PrintableModifiers(ms) && !AllAllowed(ms)
    ensures ParseZodType(PrintSchema(props) + PrintSuffix(Some(ms))) == Err(UnsupportedModifier)
  {
    hide Neutral;
    hide IsAllowed;
    hide ParseObjectModifiers;
    hide CloseObject;
    hide PrintProperties;
    hide ObjectContent;
    hide PrintModifiers;
    hide Join;
    var content, suffix := PrintProperties(props), PrintSuffix(Some(ms));
    var s := PrintSchema(props) + suffix;
    PropertiesShape(props);
    ObjectCloses(content, suffix);
    assert s[8..] == "({" + content + "})" + suffix;
    assert s[8 + (|content| + 4)..] == suffix && suffix[0] == '.';
    assert suffix[1..] == Join(PrintModifiers(ms), ".");
    ObjectModifiersIff(ms);
    assert OBJECT <= s;
  }
}
