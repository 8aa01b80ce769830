/** Building validators from parsed types, and the way from schema text to validator. */
module ZodBuild {
  import opened Wrappers
  import opened ZodText
  import opened ZodParser
  import opened ZodPrint
  import opened ZodMeaning
  import opened ZodClean

  /** A bound on the length of a string or an array. */
  datatype Bound = Max(limit: Arg) | Min(limit: Arg)

  datatype Zod =
    | ZodString(bounds: seq<Bound>)
    | ZodNumber(whole: bool)
    | ZodBoolean
    | ZodDate
    | ZodEnum(values: seq<string>)
    | ZodObject(fields: seq<Field>)
    | ZodArray(element: Zod, bounds: seq<Bound>)
    | ZodOptional(inner: Zod)
    | ZodDefault(inner: Zod, value: Arg)
    | Described(inner: Zod, text: Arg)

  datatype Field = Field(key: string, value: Zod)

  datatype Failure = Unparsed(error: Error) | UnsupportedBase(base: string) | EnumWithoutValues

  datatype Outcome<T> = Built(value: T) | Failed(failure: Failure)

  // ---- modifiers ----

  /** The first argument, when there is one. */
  function FirstArg(m: Modifier): Option<Arg> { if m.args == [] then None else Some(m.args[0]) }

  predicate Truthy(a: Arg) { a != Num(0) && a != Str("") }

  /** A description does not hide what it describes from the modifiers that look at it. */
  function Bounded(z: Zod, b: Bound): Zod {
    match z
    case ZodString(bounds) => ZodString(bounds + [b])
    case ZodArray(element, bounds) => ZodArray(element, bounds + [b])
    case Described(inner, text) => Described(Bounded(inner, b), text)
    case _ => z
  }

  function Whole(z: Zod): Zod {
    match z
    case ZodNumber(_) => ZodNumber(true)
    case Described(inner, text) => Described(Whole(inner), text)
    case _ => z
  }

  function Apply(z: Zod, m: Modifier): Zod {
    var arg := FirstArg(m);
    match m.name
    case "int" => Whole(z)
    case "max" => if arg.Some? then Bounded(z, Max(arg.value)) else z
    case "min" => if arg.Some? then Bounded(z, Min(arg.value)) else z
    case "optional" => ZodOptional(z)
    case "array" => ZodArray(z, [])
    case "describe" => if arg.Some? && Truthy(arg.value) then Described(z, arg.value) else z
    case "default" => if arg.Some? then ZodDefault(z, arg.value) else z
    case _ => z
  }

  function ApplyAll(z: Zod, ms: seq<Modifier>): Zod
    decreases |ms|
  {
    if ms == [] then z else ApplyAll(Apply(z, ms[0]), ms[1..])
  }

  method ApplyModifiers(zodType: Zod, modifiers: seq<Modifier>) returns (z: Zod)
    ensures z == ApplyAll(zodType, modifiers)
  {
    z := zodType;
    assert modifiers[0..] == modifiers;
    for i := 0 to |modifiers|
      invariant ApplyAll(z, modifiers[i..]) == ApplyAll(zodType, modifiers)
    {
      assert modifiers[i..][0] == modifiers[i] && modifiers[i..][1..] == modifiers[i + 1..];
      z := Apply(z, modifiers[i]);
    }
  }

  // ---- building ----

  function BuildBase(base: string, baseArgs: Option<seq<Arg>>): Outcome<Zod> {
    match base
    case "string" => Built(ZodString([]))
    case "number" => Built(ZodNumber(false))
    case "boolean" => Built(ZodBoolean)
    case "date" => Built(ZodDate)
    case "enum" =>
      if baseArgs.Some? && baseArgs.value != [] && baseArgs.value[0].Items? then Built(ZodEnum(baseArgs.value[0].items))
      else Failed(EnumWithoutValues)
    case _ => Failed(UnsupportedBase(base))
  }

  function Modified(z: Zod, modifiers: Option<seq<Modifier>>): Zod {
    if modifiers.Some? then ApplyAll(z, modifiers.value) else z
  }

  function BuildZodType(t: TypeInfo): Outcome<Zod>
    decreases t
  {
    match t
    case NestedObject(props, modifiers) =>
      var fields := BuildFields(props);
      if fields.Failed? then Failed(fields.failure) else Built(Modified(ZodObject(fields.value), modifiers))
    case ArrayOfObjects(props, modifiers) =>
      var fields := BuildFields(props);
      if fields.Failed? then Failed(fields.failure)
      else Built(Modified(ZodArray(ZodObject(fields.value), []), modifiers))
    case SimpleArray(inner, modifiers) =>
      var element := BuildZodType(inner);
      if element.Failed? then element else Built(Modified(ZodArray(element.value, []), modifiers))
    case Base(base, baseArgs, mods) =>
      var z := BuildBase(base, baseArgs);
      if z.Failed? then z else Built(ApplyAll(z.value, mods))
  }

  function BuildFields(props: seq<Property>): Outcome<seq<Field>>
    decreases props
  {
    if props == [] then Built([])
    else
      var first := BuildZodType(props[0].value);
      if first.Failed? then Failed(first.failure)
      else
        var rest := BuildFields(props[1..]);
        if rest.Failed? then rest else Built([Field(props[0].key, first.value)] + rest.value)
  }

  function ParseZodSchema(schema: string): Outcome<Zod> {
    var parsed := ParseSchemaStructure(CleanSchemaString(schema));
    if parsed.Err? then Failed(Unparsed(parsed.error))
    else
      var fields := BuildFields(parsed.value);
      if fields.Failed? then Failed(fields.failure) else Built(ZodObject(fields.value))
  }

  // ---- what is built ----

  /** The base types of a type, from left to right. */
  function Bases(t: TypeInfo): seq<TypeInfo>
    decreases t
  {
    match t
    case NestedObject(props, _) => BasesOf(props)
    case ArrayOfObjects(props, _) => BasesOf(props)
    case SimpleArray(inner, _) => Bases(inner)
    case Base(_, _, _) => [t]
  }

  function BasesOf(props: seq<Property>): seq<TypeInfo>
    decreases props
  {
    if props == [] then [] else Bases(props[0].value) + BasesOf(props[1..])
  }

  /** The five base types there are, an enumeration with its values. */
  predicate Buildable(t: TypeInfo) {
    t.Base? && (t.base in ["string", "number", "boolean", "date"]
      || (t.base == "enum" && t.baseArgs.Some? && t.baseArgs.value != [] && t.baseArgs.value[0].Items?))
  }

  function FailureOf(t: TypeInfo): Failure
    requires t.Base?
  {
    if t.base == "enum" then EnumWithoutValues else UnsupportedBase(t.base)
  }

  /** The failure of the first base type that cannot be built. */
  function FirstFailure(bases: seq<TypeInfo>): Option<Failure> {
    if bases == [] then None
    else if bases[0].Base? && !Buildable(bases[0]) then Some(FailureOf(bases[0]))
    else FirstFailure(bases[1..])
  }

  lemma {:induction false} FirstFailureConcat(a: seq<TypeInfo>, b: seq<TypeInfo>)
    ensures FirstFailure(a + b) == if FirstFailure(a).Some? then FirstFailure(a) else FirstFailure(b)
    decreases |a|
  {
    if a == [] {
      assert a + b == b;
    } else {
      assert (a + b)[1..] == a[1..] + b;
      FirstFailureConcat(a[1..], b);
    }
  }

  /** A type is built exactly when all its base types can be; else the leftmost that cannot decides the failure. */
  lemma {:induction false} BuildsIff(t: TypeInfo)
    ensures var failure := FirstFailure(Bases(t));
      if failure.Some? then BuildZodType(t) == Failed(failure.value) else BuildZodType(t).Built?
    decreases t
  {
    hide ApplyAll;
    match t
    case NestedObject(props, _) => FieldsBuildIff(props);
    case ArrayOfObjects(props, _) => FieldsBuildIff(props);
    case SimpleArray(inner, _) => BuildsIff(inner);
    case Base(base, _, _) => assert [t][1..] == [];
  }

  lemma {:induction false} FieldsBuildIff(props: seq<Property>)
    ensures var failure := FirstFailure(BasesOf(props));
      if failure.Some? then BuildFields(props) == Failed(failure.value)
      else
        && BuildFields(props).Built?
        && |BuildFields(props).value| == |props|
        && forall i | 0 <= i < |props| ::
             var f := BuildFields(props).value[i];
             f.key == props[i].key && BuildZodType(props[i].value) == Built(f.value)
    decreases props
  {
    hide Bases;
    hide BuildZodType;
    if props != [] {
      BuildsIff(props[0].value);
      FieldsBuildIff(props[1..]);
      FirstFailureConcat(Bases(props[0].value), BasesOf(props[1..]));
      assert forall i | 1 <= i < |props| :: props[i] == props[1..][i - 1];
    }
  }

  lemma {:induction false} NoFailureIff(bases: seq<TypeInfo>)
    ensures FirstFailure(bases).None? <==> forall i | 0 <= i < |bases| :: bases[i].Base? ==> Buildable(bases[i])
  {
    if bases != [] {
      NoFailureIff(bases[1..]);
      assert forall i | 1 <= i < |bases| :: bases[i] == bases[1..][i - 1];
    }
  }

  /** From text to validator: a printed schema builds exactly when the base types that are read do, and then each
      property that is read has the validator of its type, under its key and in its place. */
  lemma PrintedSchemaBuilds(props: seq<Property>)
    requires PrintableProperties(props) && TidyProperties(props)
    ensures var read, z := MeantProperties(props, []), ParseZodSchema(PrintSchema(props));
      && (read == props <==> FaithfulProperties(props))
      && (z.Built? <==> forall i | 0 <= i < |BasesOf(read)| :: BasesOf(read)[i].Base? ==> Buildable(BasesOf(read)[i]))
      && (z.Built? ==>
            && z.value.ZodObject? && |z.value.fields| == |read|
            && forall i | 0 <= i < |read| ::
                 z.value.fields[i].key == read[i].key && BuildZodType(read[i].value) == Built(z.value.fields[i].value))
  {
    hide MeantProperties;
    hide FaithfulProperties;
    hide PrintSchema;
    hide CleanSchemaString;
    hide ParseSchemaStructure;
    hide PrintableProperties;
    hide TidyProperties;
    hide BuildFields;
    hide BuildZodType;
    hide BasesOf;
    hide Buildable;
    var read := MeantProperties(props, []);
    CleanedSchemaRoundTrip(props);
    MeantPropertiesIff(props);
    FieldsBuildIff(read);
    NoFailureIff(BasesOf(read));
  }

  /** The parser's list of allowed names lets through base types that cannot be built. */
  lemma AllowedIsNotBuildable(base: string, baseArgs: Option<seq<Arg>>, mods: seq<Modifier>)
    ensures var t := Base(base, baseArgs, mods);
      ValidateTypeInfo(t) == Some(UnsupportedType) ==> BuildZodType(t) == Failed(UnsupportedBase(base))
    ensures var t := Base(base, baseArgs, mods);
      base in {"int", "object", "array", "optional", "max", "min", "describe", "default"} <==>
        IsAllowed(base) && BuildZodType(t) == Failed(UnsupportedBase(base))
  {
    hide ApplyAll;
  }

  // ---- what modifiers keep ----

  /** How many arrays are around what is validated at last. */
  function Layers(z: Zod): nat {
    match z
    case ZodArray(element, _) => Layers(element) + 1
    case ZodOptional(inner) => Layers(inner)
    case ZodDefault(inner, _) => Layers(inner)
    case Described(inner, _) => Layers(inner)
    case _ => 0
  }

  /** What is validated at last, without its bounds. */
  function Core(z: Zod): Zod {
    match z
    case ZodArray(element, _) => Core(element)
    case ZodOptional(inner) => Core(inner)
    case ZodDefault(inner, _) => Core(inner)
    case Described(inner, _) => Core(inner)
    case ZodString(_) => ZodString([])
    case ZodNumber(_) => ZodNumber(false)
    case _ => z
  }

  function ArrayCount(ms: seq<Modifier>): nat {
    if ms == [] then 0 else (if ms[0].name == "array" then 1 else 0) + ArrayCount(ms[1..])
  }

  lemma {:induction false} BoundedKeepsCore(z: Zod, b: Bound)
    ensures Core(Bounded(z, b)) == Core(z) && Layers(Bounded(z, b)) == Layers(z)
  {
    if z.Described? { BoundedKeepsCore(z.inner, b); }
  }

  lemma {:induction false} WholeKeepsCore(z: Zod)
    ensures Core(Whole(z)) == Core(z) && Layers(Whole(z)) == Layers(z)
  {
    if z.Described? { WholeKeepsCore(z.inner); }
  }

  /** Modifiers put arrays around a validator, one for each `array` among them, and leave alone what is validated
      inside. */
  lemma {:induction false} ModifiersKeepCore(z: Zod, ms: seq<Modifier>)
    ensures Core(ApplyAll(z, ms)) == Core(z) && Layers(ApplyAll(z, ms)) == Layers(z) + ArrayCount(ms)
    decreases |ms|
  {
    if ms != [] {
      ApplyKeepsCore(z, ms[0]);
      ModifiersKeepCore(Apply(z, ms[0]), ms[1..]);
    }
  }

  lemma WrappersKeepCore(z: Zod, a: Arg)
    ensures Core(ZodOptional(z)) == Core(ZodDefault(z, a)) == Core(Described(z, a)) == Core(ZodArray(z, [])) == Core(z)
    ensures Layers(ZodOptional(z)) == Layers(ZodDefault(z, a)) == Layers(Described(z, a)) == Layers(z)
    ensures Layers(ZodArray(z, [])) == Layers(z) + 1
  {
  }

  lemma ApplyKeepsCore(z: Zod, m: Modifier)
    ensures Core(Apply(z, m)) == Core(z) && Layers(Apply(z, m)) == Layers(z) + if m.name == "array" then 1 else 0
  {
    hide Bounded;
    hide Whole;
    hide Core;
    hide Layers;
    var arg := FirstArg(m);
    var a := if arg.Some? then arg.value else Num(0);
    WholeKeepsCore(z);
    WrappersKeepCore(z, a);
    BoundedKeepsCore(z, Max(a));
    BoundedKeepsCore(z, Min(a));
  }
}
