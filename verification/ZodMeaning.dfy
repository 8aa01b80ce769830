/** The grammar of printed schemas, and what the parser makes of them. */
module ZodMeaning {
  import opened Wrappers
  import opened ZodText
  import opened ZodParser
  import opened ZodPrint

  // ---- the grammar ----

  predicate PrintableArg(a: Arg) {
    match a
    case Num(_) => true
    case Str(s) => Every(s, LiteralChar)
    case Items(items) => forall i | 0 <= i < |items| :: Every(items[i], LiteralChar)
    case Obj(_) => false
  }

  /** An argument beside others: a number, or a string without a comma. */
  predicate ListedArg(a: Arg) { a.Num? || (a.Str? && Every(a.s, LiteralChar) && ',' !in a.s) }

  predicate PrintableArgs(args: seq<Arg>) {
    if |args| <= 1 then forall i | 0 <= i < |args| :: PrintableArg(args[i])
    else forall i | 0 <= i < |args| :: ListedArg(args[i])
  }

  predicate IsWord(s: string) { s != "" && Every(s, IsWordChar) }

  predicate PrintableModifiers(ms: seq<Modifier>) {
    forall i | 0 <= i < |ms| :: IsWord(ms[i].name) && PrintableArgs(ms[i].args)
  }

  /** On arrays and objects only allowed modifiers are read, and an empty list prints as no list. */
  predicate PrintableSuffix(modifiers: Option<seq<Modifier>>) {
    modifiers.Some? ==>
      && modifiers.value != []
      && PrintableModifiers(modifiers.value)
      && forall i | 0 <= i < |modifiers.value| :: IsAllowed(modifiers.value[i].name)
  }

  predicate KeyChar(c: char) { !IsSpace(c) && !IsQuote(c) && !IsOpen(c) && !IsClose(c) && c != ',' && c != ':' }

  predicate PlainKey(key: string) { key != "" && Every(key, KeyChar) }

  /** Keys may repeat, name the prototype or look like array indices; objects may stand directly inside arrays. */
  predicate Printable(t: TypeInfo)
    decreases t
  {
    match t
    case Base(base, baseArgs, mods) =>
      && IsWord(base) && base != "object" && base != "array"
      && (baseArgs.Some? ==> PrintableArgs(baseArgs.value))
      && PrintableModifiers(mods)
    case NestedObject(props, modifiers) => PrintableProperties(props) && PrintableSuffix(modifiers)
    case ArrayOfObjects(props, modifiers) => PrintableProperties(props) && PrintableSuffix(modifiers) && Elements(props)
    case SimpleArray(inner, modifiers) =>
      && Printable(inner) && PrintableSuffix(modifiers)
      && (inner.NestedObject? ==> Elements(inner.properties))
  }

  predicate PrintableProperties(props: seq<Property>)
    decreases props
  {
    forall i | 0 <= i < |props| :: PlainKey(props[i].key) && Printable(props[i].value)
  }

  /** The objects of an array are validated after they have been read. */
  predicate Elements(props: seq<Property>) { ValidateProperties(MeantProperties(props, [])).None? }

  // ---- what is read ----

  /** Several arguments between a first and a last string are read as one string. */
  predicate LooksQuoted(args: seq<Arg>) { |args| > 1 && args[0].Str? && args[|args| - 1].Str? }

  function MeantArgs(args: seq<Arg>): seq<Arg> {
    if LooksQuoted(args) then [Str(Slice(PrintArgList(args)))] else args
  }

  function MeantModifiers(ms: seq<Modifier>): seq<Modifier> {
    seq(|ms|, i requires 0 <= i < |ms| => Modifier(ms[i].name, MeantArgs(ms[i].args)))
  }

  function MeantSuffix(modifiers: Option<seq<Modifier>>): Option<seq<Modifier>> {
    if modifiers.None? then None else Some(MeantModifiers(modifiers.value))
  }

  /** The type that is read: objects have their properties set one after the other, and an object directly inside an
      array loses its modifiers. */
  function Meant(t: TypeInfo): TypeInfo
    decreases t
  {
    match t
    case Base(base, baseArgs, mods) =>
      Base(base, if baseArgs.None? then None else Some(MeantArgs(baseArgs.value)), MeantModifiers(mods))
    case NestedObject(props, modifiers) => NestedObject(MeantProperties(props, []), MeantSuffix(modifiers))
    case ArrayOfObjects(props, modifiers) => ArrayOfObjects(MeantProperties(props, []), MeantSuffix(modifiers))
    case SimpleArray(inner, modifiers) =>
      if inner.NestedObject? then ArrayOfObjects(MeantProperties(inner.properties, []), MeantSuffix(modifiers))
      else SimpleArray(Meant(inner), MeantSuffix(modifiers))
  }

  function MeantProperties(props: seq<Property>, done: seq<Property>): seq<Property>
    decreases props
  {
    if props == [] then done
    else MeantProperties(props[1..], PutProperty(done, props[0].key, Meant(props[0].value)))
  }

  // ---- what is read as it was printed ----

  predicate FaithfulModifiers(ms: seq<Modifier>) { forall i | 0 <= i < |ms| :: !LooksQuoted(ms[i].args) }

  predicate FaithfulSuffix(modifiers: Option<seq<Modifier>>) { modifiers.Some? ==> FaithfulModifiers(modifiers.value) }

  /** `a` may stand before `b` in an object. */
  predicate Precedes(a: string, b: string) { a != b && !ComesFirst(b, a) }

  /** The keys of an object, in its order. */
  predicate ObjectKeys(props: seq<Property>) {
    && (forall i | 0 <= i < |props| :: props[i].key != "" && props[i].key != "__proto__")
    && (forall i, j | 0 <= i < j < |props| :: Precedes(props[i].key, props[j].key))
  }

  /** Array indices come first and ascend, no key repeats or names the prototype, no object stands directly inside an
      array, and no argument list starts and ends in a string. */
  predicate Faithful(t: TypeInfo)
    decreases t
  {
    match t
    case Base(base, baseArgs, mods) => (baseArgs.Some? ==> !LooksQuoted(baseArgs.value)) && FaithfulModifiers(mods)
    case NestedObject(props, modifiers) => FaithfulProperties(props) && FaithfulSuffix(modifiers)
    case ArrayOfObjects(props, modifiers) => FaithfulProperties(props) && FaithfulSuffix(modifiers)
    case SimpleArray(inner, modifiers) => !inner.NestedObject? && Faithful(inner) && FaithfulSuffix(modifiers)
  }

  predicate FaithfulProperties(props: seq<Property>)
    decreases props
  {
    ObjectKeys(props) && forall i | 0 <= i < |props| :: Faithful(props[i].value)
  }

  lemma {:induction false} PutKeepsKeys(props: seq<Property>, key: string, value: TypeInfo)
    requires ObjectKeys(props)
    ensures ObjectKeys(PutProperty(props, key, value))
    ensures forall p | p in PutProperty(props, key, value) :: p in props || p == Property(key, value)
    decreases |props|
  {
    hide IsIndex;
    if key != "" && key != "__proto__" && props != [] {
      var first, rest := props[0], props[1..];
      if first.key != key && !ComesFirst(key, first.key) {
        PutKeepsKeys(rest, key, value);
        var more := PutProperty(rest, key, value);
        forall i | 0 <= i < |more| ensures Precedes(first.key, more[i].key) {
          assert more[i] in more;
          if more[i] in rest {
            var j :| 0 <= j < |rest| && rest[j] == more[i];
            assert props[j + 1] == rest[j];
          }
        }
        HeadKeepsKeys(first, more);
      } else {
        forall i | 0 <= i < |rest| ensures rest[i] == props[i + 1] {}
      }
    }
  }

  lemma HeadKeepsKeys(first: Property, more: seq<Property>)
    requires first.key != "" && first.key != "__proto__" && ObjectKeys(more)
    requires forall i | 0 <= i < |more| :: Precedes(first.key, more[i].key)
    ensures ObjectKeys([first] + more)
  {
    hide ComesFirst;
  }

  /** What is read has the keys of an object, and every property of it was printed. */
  lemma {:induction false} MeantIsAnObject(props: seq<Property>, done: seq<Property>)
    requires ObjectKeys(done)
    ensures var read := MeantProperties(props, done);
            && ObjectKeys(read)
            && forall p | p in read :: p in done || Printed(props, p)
    decreases |props|
  {
    hide ObjectKeys;
    hide PutProperty;
    hide Meant;
    if props != [] {
      var value := Meant(props[0].value);
      PutKeepsKeys(done, props[0].key, value);
      MeantIsAnObject(props[1..], PutProperty(done, props[0].key, value));
      forall p | Printed(props[1..], p) ensures Printed(props, p) {
        var i :| 0 <= i < |props[1..]| && props[1..][i].key == p.key && Meant(props[1..][i].value) == p.value;
        assert props[i + 1] == props[1..][i];
      }
      assert Printed(props, Property(props[0].key, value)) by { assert props[0].key == props[0].key; }
    }
  }

  ghost predicate Printed(props: seq<Property>, p: Property) {
    exists i | 0 <= i < |props| :: props[i].key == p.key && Meant(props[i].value) == p.value
  }

  lemma {:induction false} PutAtEnd(props: seq<Property>, p: Property)
    requires ObjectKeys(props + [p])
    ensures PutProperty(props, p.key, p.value) == props + [p]
    decreases |props|
  {
    hide ComesFirst;
    var all := props + [p];
    assert all[|props|] == p;
    if props != [] {
      assert all[0] == props[0] && Precedes(all[0].key, all[|props|].key);
      var rest := props[1..] + [p];
      assert all[1..] == rest;
      forall i, j | 0 <= i < j < |rest| ensures Precedes(rest[i].key, rest[j].key) {
        assert rest[i] == all[i + 1] && rest[j] == all[j + 1];
      }
      forall i | 0 <= i < |rest| ensures rest[i].key != "" && rest[i].key != "__proto__" {
        assert rest[i] == all[i + 1];
      }
      PutAtEnd(props[1..], p);
    }
  }

  /** The properties whose key does not name the prototype. */
  function WithoutPrototype(props: seq<Property>): seq<Property> {
    if props == [] then []
    else (if props[0].key == "__proto__" then [] else [props[0]]) + WithoutPrototype(props[1..])
  }

  /** Properties in the order of an object are read in that order, without those that name the prototype. */
  lemma {:induction false} PrototypeIsDropped(props: seq<Property>, done: seq<Property>)
    requires ObjectKeys(done + WithoutPrototype(props))
    requires forall i | 0 <= i < |props| :: Meant(props[i].value) == props[i].value
    ensures MeantProperties(props, done) == done + WithoutPrototype(props)
    decreases |props|
  {
    hide Precedes;
    hide PutProperty;
    hide Meant;
    if props == [] {
      assert done + WithoutPrototype(props) == done;
    } else {
      var p, rest := props[0], WithoutPrototype(props[1..]);
      if p.key == "__proto__" {
        assert WithoutPrototype(props) == rest;
        assert PutProperty(done, p.key, p.value) == done by { PrototypeIsNoProperty(done, p.value); }
        PrototypeIsDropped(props[1..], done);
      } else {
        var now := done + [p];
        assert now + rest == done + WithoutPrototype(props);
        forall i | 0 <= i < |now| ensures now[i] == (now + rest)[i] {}
        PutAtEnd(done, p);
        PrototypeIsDropped(props[1..], now);
      }
    }
  }

  lemma PrototypeIsNoProperty(props: seq<Property>, value: TypeInfo)
    ensures PutProperty(props, "__proto__", value) == props
  {
  }

  lemma {:induction false} NoPrototype(props: seq<Property>)
    requires forall i | 0 <= i < |props| :: props[i].key != "__proto__"
    ensures WithoutPrototype(props) == props
  {
    if props != [] { NoPrototype(props[1..]); }
  }

  lemma PropertiesStayIff(props: seq<Property>)
    ensures MeantProperties(props, []) == props
            <==> ObjectKeys(props) && forall i | 0 <= i < |props| :: Meant(props[i].value) == props[i].value
  {
    hide Meant;
    hide MeantProperties;
    assert [] + props == props;
    if ObjectKeys(props) && forall i | 0 <= i < |props| :: Meant(props[i].value) == props[i].value {
      NoPrototype(props);
      PrototypeIsDropped(props, []);
    }
    MeantIsAnObject(props, []);
    if MeantProperties(props, []) == props {
      assert forall i | 0 <= i < |props| :: props[i] in props;
      OwnValues(props);
    }
  }

  lemma KeysAreDistinct(props: seq<Property>, i: nat, j: nat)
    requires ObjectKeys(props) && i < |props| && j < |props| && props[i].key == props[j].key
    ensures i == j
  {
    hide ComesFirst;
    assert i < j ==> Precedes(props[i].key, props[j].key);
    assert j < i ==> Precedes(props[j].key, props[i].key);
  }

  lemma OwnValue(props: seq<Property>, i: nat)
    requires ObjectKeys(props) && i < |props| && Printed(props, props[i])
    ensures Meant(props[i].value) == props[i].value
  {
    hide Meant;
    hide ObjectKeys;
    var j :| 0 <= j < |props| && props[j].key == props[i].key && Meant(props[j].value) == props[i].value;
    KeysAreDistinct(props, i, j);
  }

  /** Where each property was printed and no key repeats, each was printed in its own place. */
  lemma OwnValues(props: seq<Property>)
    requires ObjectKeys(props) && forall i | 0 <= i < |props| :: Printed(props, props[i])
    ensures forall i | 0 <= i < |props| :: Meant(props[i].value) == props[i].value
  {
    hide Meant;
    hide ObjectKeys;
    hide Printed;
    forall i | 0 <= i < |props| ensures Meant(props[i].value) == props[i].value {
      OwnValue(props, i);
    }
  }

  lemma ModifiersStayIff(ms: seq<Modifier>)
    ensures MeantModifiers(ms) == ms <==> FaithfulModifiers(ms)
  {
    forall i | 0 <= i < |ms| ensures MeantModifiers(ms)[i] == ms[i] <==> !LooksQuoted(ms[i].args) {}
    if FaithfulModifiers(ms) { assert MeantModifiers(ms) == ms; }
  }

  /** A type is read as it is exactly when it is faithful. */
  lemma {:induction false} MeantIff(t: TypeInfo)
    ensures Meant(t) == t <==> Faithful(t)
    decreases t
  {
    hide MeantProperties;
    hide MeantModifiers;
    hide FaithfulModifiers;
    match t
    case Base(base, baseArgs, mods) =>
      ModifiersStayIff(mods);
    case NestedObject(props, modifiers) =>
      MeantPropertiesIff(props);
      if modifiers.Some? { ModifiersStayIff(modifiers.value); }
    case ArrayOfObjects(props, modifiers) =>
      MeantPropertiesIff(props);
      if modifiers.Some? { ModifiersStayIff(modifiers.value); }
    case SimpleArray(inner, modifiers) =>
      MeantIff(inner);
      if modifiers.Some? { ModifiersStayIff(modifiers.value); }
  }

  lemma {:induction false} MeantPropertiesIff(props: seq<Property>)
    ensures MeantProperties(props, []) == props <==> FaithfulProperties(props)
    decreases props
  {
    hide ObjectKeys;
    hide Meant;
    hide MeantProperties;
    PropertiesStayIff(props);
    forall i | 0 <= i < |props| ensures Meant(props[i].value) == props[i].value <==> Faithful(props[i].value) {
      MeantIff(props[i].value);
    }
  }
}
