/** What a built validator accepts, and what a schema means: the same values. */
module ZodAccepts {
  import opened Wrappers
  import opened ZodParser
  import opened ZodPrint
  import opened ZodMeaning
  import opened ZodClean
  import opened ZodBuild

  // ---- values ----

  datatype JsValue =
    | JsUndefined
    | JsNull
    | JsBool(b: bool)
    | JsNumber(x: real)
    | JsString(s: string)
    | JsDate
    | JsArray(items: seq<JsValue>)
    | JsObject(fields: map<string, JsValue>)

  function Get(v: JsValue, key: string): JsValue
    requires v.JsObject?
  {
    if key in v.fields then v.fields[key] else JsUndefined
  }

  function Strings(items: seq<string>): seq<JsValue> { seq(|items|, i requires 0 <= i < |items| => JsString(items[i])) }

  /** The value that an argument stands for. */
  function ValueOf(a: Arg): JsValue
    decreases a
  {
    match a
    case Num(n) => JsNumber(n as real)
    case Str(s) => JsString(s)
    case Items(items) => JsArray(Strings(items))
    case Obj(fields) => JsObject(FieldValues(fields))
  }

  function FieldValues(fields: seq<ArgField>): map<string, JsValue>
    decreases fields
  {
    if fields == [] then map[]
    else
      var last := |fields| - 1;
      FieldValues(fields[..last])[fields[last].name := ValueOf(fields[last].value)]
  }

  /** How an argument compares with a length: a number as itself, anything else as the number it converts to. */
  type Conversion = Arg -> Option<real>

  predicate AtMost(convert: Conversion, length: nat, limit: Arg) {
    var x := if limit.Num? then Some(limit.n as real) else convert(limit);
    x.Some? ==> length as real <= x.value
  }

  predicate AtLeast(convert: Conversion, length: nat, limit: Arg) {
    var x := if limit.Num? then Some(limit.n as real) else convert(limit);
    x.Some? ==> length as real >= x.value
  }

  predicate IsWhole(x: real) { x.Floor as real == x }

  // ---- validators ----

  predicate InBound(convert: Conversion, length: nat, b: Bound) {
    match b
    case Max(limit) => AtMost(convert, length, limit)
    case Min(limit) => AtLeast(convert, length, limit)
  }

  /** On an array a later bound replaces an earlier one of its kind. */
  predicate InLastBounds(convert: Conversion, length: nat, bounds: seq<Bound>, noMax: bool, noMin: bool)
    decreases |bounds|
  {
    bounds == [] ||
    (var last := bounds[|bounds| - 1];
     && ((if last.Max? then noMax else noMin) || InBound(convert, length, last))
     && InLastBounds(convert, length, bounds[..|bounds| - 1], noMax || last.Max?, noMin || last.Min?))
  }

  /** What the validator accepts. The flags say that a bound of that kind on its outermost array is replaced. */
  predicate Accepts(convert: Conversion, z: Zod, v: JsValue, noMax: bool, noMin: bool)
    decreases z
  {
    match z
    case ZodString(bounds) => v.JsString? && forall i | 0 <= i < |bounds| :: InBound(convert, |v.s|, bounds[i])
    case ZodNumber(whole) => v.JsNumber? && (whole ==> IsWhole(v.x))
    case ZodBoolean => v.JsBool?
    case ZodDate => v.JsDate?
    case ZodEnum(values) => v.JsString? && v.s in values
    case ZodObject(fields) =>
      v.JsObject? && forall i | 0 <= i < |fields| ::
        Accepts(convert, fields[i].value, Get(v, fields[i].key), false, false)
    case ZodArray(element, bounds) =>
      && v.JsArray?
      && (forall i | 0 <= i < |v.items| :: Accepts(convert, element, v.items[i], false, false))
      && InLastBounds(convert, |v.items|, bounds, noMax, noMin)
    case ZodOptional(inner) => v.JsUndefined? || Accepts(convert, inner, v, false, false)
    case ZodDefault(inner, value) =>
      Accepts(convert, inner, if v.JsUndefined? then ValueOf(value) else v, false, false)
    case Described(inner, _) => Accepts(convert, inner, v, noMax, noMin)
  }

  // ---- meanings ----

  /** What the outermost layer of a type is. */
  datatype Layer = StringLayer | NumberLayer | ArrayLayer | OtherLayer

  function BaseLayer(t: TypeInfo): Layer {
    match t
    case Base(base, _, _) => if base == "string" then StringLayer else if base
        == "number" then NumberLayer else OtherLayer
    case NestedObject(_, _) => OtherLayer
    case _ => ArrayLayer
  }

  function ModifiersOf(t: TypeInfo): seq<Modifier> {
    match t
    case Base(_, _, mods) => mods
    case NestedObject(_, modifiers) => if modifiers.Some? then modifiers.value else []
    case ArrayOfObjects(_, modifiers) => if modifiers.Some? then modifiers.value else []
    case SimpleArray(_, modifiers) => if modifiers.Some? then modifiers.value else []
  }

  /** The outermost layer after some modifiers: the last of them that puts something around the type. */
  function OuterLayer(t: TypeInfo, ms: seq<Modifier>): Layer
    decreases |ms|
  {
    if ms == [] then BaseLayer(t)
    else
      var last := ms[|ms| - 1];
      if last.name == "array" then ArrayLayer
      else if last.name == "optional" || (last.name == "default" && last.args != []) then OtherLayer
      else OuterLayer(t, ms[..|ms| - 1])
  }

  /** The value has the type, told from the type and its modifiers in the order in which they are written. */
  predicate Conforms(convert: Conversion, t: TypeInfo, v: JsValue)
    decreases t, 2, 0
  {
    Modified(convert, t, ModifiersOf(t), v, false, false)
  }

  /** The value has the type with the modifiers `ms`, of which the last is the outermost. The flags say that a later
      modifier of the same array sets its largest, or least, length. */
  predicate Modified(convert: Conversion, t: TypeInfo, ms: seq<Modifier>, v: JsValue, maxSet: bool, minSet: bool)
    decreases t, 1, |ms|
  {
    if ms == [] then IsBare(convert, t, v)
    else
      var last, before := ms[|ms| - 1], ms[..|ms| - 1];
      var layer := OuterLayer(t, before);
      if last.name == "optional" then v.JsUndefined? || Modified(convert, t, before, v, false, false)
      else if last.name == "array" then
        v.JsArray? && forall i | 0 <= i < |v.items| :: Modified(convert, t, before, v.items[i], false, false)
      else if last.name == "int" then
        Modified(convert, t, before, v, maxSet, minSet) && (layer.NumberLayer? && v.JsNumber? ==> IsWhole(v.x))
      else if last.args == [] then Modified(convert, t, before, v, maxSet, minSet)
      else if last.name == "default" then
        Modified(convert, t, before, if v.JsUndefined? then ValueOf(last.args[0]) else v, false, false)
      else if last.name == "max" && layer.StringLayer? then
        Modified(convert, t, before, v, maxSet, minSet) && (v.JsString? ==> AtMost(convert, |v.s|, last.args[0]))
      else if last.name == "min" && layer.StringLayer? then
        Modified(convert, t, before, v, maxSet, minSet) && (v.JsString? ==> AtLeast(convert, |v.s|, last.args[0]))
      else if last.name == "max" && layer.ArrayLayer? then
        && Modified(convert, t, before, v, true, minSet)
        && (!maxSet && v.JsArray? ==> AtMost(convert, |v.items|, last.args[0]))
      else if last.name == "min" && layer.ArrayLayer? then
        && Modified(convert, t, before, v, maxSet, true)
        && (!minSet && v.JsArray? ==> AtLeast(convert, |v.items|, last.args[0]))
      else Modified(convert, t, before, v, maxSet, minSet)
  }

  /** The value has the type without its modifiers. */
  predicate IsBare(convert: Conversion, t: TypeInfo, v: JsValue)
    decreases t, 0, 0
  {
    match t
    case Base(base, baseArgs, _) =>
      (match base
       case "string" => v.JsString?
       case "number" => v.JsNumber?
       case "boolean" => v.JsBool?
       case "date" => v.JsDate?
       case "enum" =>
         && v.JsString? && baseArgs.Some? && baseArgs.value != []
         && baseArgs.value[0].Items? && v.s in baseArgs.value[0].items
       case _ => false)
    case NestedObject(props, _) => IsObject(convert, props, v)
    case ArrayOfObjects(props, _) =>
      v.JsArray? && forall i | 0 <= i < |v.items| :: IsObject(convert, props, v.items[i])
    case SimpleArray(inner, _) =>
      v.JsArray? && forall i | 0 <= i < |v.items| :: Conforms(convert, inner, v.items[i])
  }

  /** An object whose properties have their types; a property that is not there is undefined. */
  predicate IsObject(convert: Conversion, props: seq<Property>, v: JsValue)
    decreases props, 3, 0
  {
    v.JsObject? && forall i | 0 <= i < |props| :: Conforms(convert, props[i].value, Get(v, props[i].key))
  }

  // ---- modifiers ----

  function LayerOf(z: Zod): Layer {
    match z
    case ZodString(_) => StringLayer
    case ZodNumber(_) => NumberLayer
    case ZodArray(_, _) => ArrayLayer
    case Described(inner, _) => LayerOf(inner)
    case _ => OtherLayer
  }

  lemma LastBound(convert: Conversion, length: nat, bounds: seq<Bound>, b: Bound, noMax: bool, noMin: bool)
    ensures InLastBounds(convert, length, bounds + [b], noMax, noMin)
            <==> && ((if b.Max? then noMax else noMin) || InBound(convert, length, b))
                 && InLastBounds(convert, length, bounds, noMax || b.Max?, noMin || b.Min?)
  {
    var all := bounds + [b];
    assert all[|all| - 1] == b && all[..|all| - 1] == bounds;
  }

  lemma {:induction false} BoundedAccepts(convert: Conversion, z: Zod, b: Bound, v: JsValue, noMax: bool, noMin: bool)
    ensures LayerOf(Bounded(z, b)) == LayerOf(z)
    ensures LayerOf(z).StringLayer? ==>
      (Accepts(convert, Bounded(z, b), v, noMax, noMin)
       <==> Accepts(convert, z, v, noMax, noMin) && (v.JsString? ==> InBound(convert, |v.s|, b)))
    ensures LayerOf(z).ArrayLayer? ==>
      (Accepts(convert, Bounded(z, b), v, noMax, noMin)
       <==> && Accepts(convert, z, v, noMax || b.Max?, noMin || b.Min?)
            && (v.JsArray? && !(if b.Max? then noMax else noMin) ==> InBound(convert, |v.items|, b)))
    ensures !LayerOf(z).StringLayer? && !LayerOf(z).ArrayLayer? ==> Bounded(z, b) == z
    decreases z
  {
    hide InBound;
    match z
    case Described(inner, _) => BoundedAccepts(convert, inner, b, v, noMax, noMin);
    case ZodArray(element, bounds) =>
      if v.JsArray? { LastBound(convert, |v.items|, bounds, b, noMax, noMin); }
    case ZodString(bounds) =>
      var all := bounds + [b];
      assert all[|bounds|] == b && forall i | 0 <= i < |bounds| :: all[i] == bounds[i];
    case _ =>
  }

  lemma {:induction false} WholeAccepts(convert: Conversion, z: Zod, v: JsValue, noMax: bool, noMin: bool)
    ensures LayerOf(Whole(z)) == LayerOf(z)
    ensures LayerOf(z).NumberLayer? ==>
      (Accepts(convert, Whole(z), v, noMax, noMin)
       <==> Accepts(convert, z, v, noMax, noMin) && (v.JsNumber? ==> IsWhole(v.x)))
    ensures !LayerOf(z).NumberLayer? ==> Whole(z) == z
    decreases z
  {
    if z.Described? { WholeAccepts(convert, z.inner, v, noMax, noMin); }
  }

  lemma {:induction false} ApplyLast(z: Zod, ms: seq<Modifier>)
    requires ms != []
    ensures ApplyAll(z, ms) == Apply(ApplyAll(z, ms[..|ms| - 1]), ms[|ms| - 1])
    decreases |ms|
  {
    if |ms| > 1 {
      assert ms[..|ms| - 1][1..] == ms[1..][..|ms| - 2];
      ApplyLast(Apply(z, ms[0]), ms[1..]);
    }
  }

  /** The layer that the modifiers look at is the outermost one. */
  lemma {:induction false} LayersAgree(t: TypeInfo, z: Zod, ms: seq<Modifier>)
    requires LayerOf(z) == BaseLayer(t)
    ensures LayerOf(ApplyAll(z, ms)) == OuterLayer(t, ms)
    decreases |ms|
  {
    if ms != [] {
      var last, before := ms[|ms| - 1], ms[..|ms| - 1];
      LayersAgree(t, z, before);
      ApplyLast(z, ms);
      LayerAfter(ApplyAll(z, before), last);
    }
  }

  lemma LayerAfter(z: Zod, m: Modifier)
    ensures LayerOf(Apply(z, m))
         == if m.name == "array" then ArrayLayer
            else if m.name == "optional" || (m.name == "default" && m.args != []) then OtherLayer
            else LayerOf(z)
  {
    hide Bounded;
    hide Whole;
    var convert: Conversion := a => None;
    WholeAccepts(convert, z, JsNull, false, false);
    if m.args != [] {
      BoundedAccepts(convert, z, Max(m.args[0]), JsNull, false, false);
      BoundedAccepts(convert, z, Min(m.args[0]), JsNull, false, false);
    }
  }

  /** The bare validator accepts the bare type. */
  ghost predicate BareAgrees(convert: Conversion, t: TypeInfo, z: Zod) {
    && LayerOf(z) == BaseLayer(t)
    && forall v, noMax, noMin :: Accepts(convert, z, v, noMax, noMin) <==> IsBare(convert, t, v)
  }

  lemma {:induction false} ModifiedAccepts(convert: Conversion, t: TypeInfo, z: Zod, ms: seq<Modifier>, v: JsValue,
                                           maxSet: bool, minSet: bool)
    requires BareAgrees(convert, t, z)
    ensures Accepts(convert, ApplyAll(z, ms), v, maxSet, minSet) <==> Modified(convert, t, ms, v, maxSet, minSet)
    decreases |ms|, 1
  {
    if ms != [] {
      hide BareAgrees;
      hide Accepts;
      hide Modified;
      hide Apply;
      hide ApplyAll;
      hide ValueOf;
      var last, before := ms[|ms| - 1], ms[..|ms| - 1];
      var y := ApplyAll(z, before);
      BareLayer(convert, t, z);
      LayersAgree(t, z, before);
      ApplyLast(z, ms);
      ModifiedAccepts(convert, t, z, before, v, maxSet, minSet);
      if last.name == "max" {
        ModifiedAccepts(convert, t, z, before, v, true, minSet);
        LastMax(convert, t, y, ms, v, maxSet, minSet);
      } else if last.name == "min" {
        ModifiedAccepts(convert, t, z, before, v, maxSet, true);
        LastMin(convert, t, y, ms, v, maxSet, minSet);
      } else if last.name == "default" {
        if last.args != [] {
          ModifiedAccepts(convert, t, z, before, if v.JsUndefined? then ValueOf(last.args[0]) else v, false, false);
        }
        LastDefault(convert, t, y, ms, v, maxSet, minSet);
      } else {
        OtherModifierAccepts(convert, t, z, ms, v, maxSet, minSet);
      }
    } else {
      NothingApplied(z);
    }
  }

  lemma {:induction false} OtherModifierAccepts(convert: Conversion, t: TypeInfo, z: Zod, ms: seq<Modifier>,
                                                v: JsValue, maxSet: bool, minSet: bool)
    requires BareAgrees(convert, t, z) && ms != [] && ms[|ms| - 1].name !in {"max", "min", "default"}
    ensures var y := ApplyAll(z, ms[..|ms| - 1]);
      Accepts(convert, Apply(y, ms[|ms| - 1]), v, maxSet, minSet) <==> Modified(convert, t, ms, v, maxSet, minSet)
    decreases |ms|, 0
  {
    hide BareAgrees;
    hide Accepts;
    hide Modified;
    hide Apply;
    hide ApplyAll;
    var last, before := ms[|ms| - 1], ms[..|ms| - 1];
    var y := ApplyAll(z, before);
    BareLayer(convert, t, z);
    LayersAgree(t, z, before);
    forall w, a, b ensures Accepts(convert, y, w, a, b) <==> Modified(convert, t, before, w, a, b) {
      ModifiedAccepts(convert, t, z, before, w, a, b);
    }
    if last.name == "optional" || last.name == "array" { LastWrapper(convert, t, y, ms, v, maxSet, minSet); }
    else if last.name == "int" { LastWhole(convert, t, y, ms, v, maxSet, minSet); }
    else { LastOther(convert, t, y, ms, v, maxSet, minSet); }
  }

  lemma BareLayer(convert: Conversion, t: TypeInfo, z: Zod)
    requires BareAgrees(convert, t, z)
    ensures LayerOf(z) == BaseLayer(t)
  {
  }

  lemma WrappersAccept(convert: Conversion, z: Zod, a: Arg, v: JsValue, noMax: bool, noMin: bool)
    ensures Accepts(convert, ZodOptional(z), v, noMax, noMin)
            <==> v.JsUndefined? || Accepts(convert, z, v, false, false)
    ensures Accepts(convert, ZodDefault(z, a), v, noMax, noMin)
            <==> Accepts(convert, z, if v.JsUndefined? then ValueOf(a) else v, false, false)
    ensures Accepts(convert, Described(z, a), v, noMax, noMin) <==> Accepts(convert, z, v, noMax, noMin)
    ensures Accepts(convert, ZodArray(z, []), v, noMax, noMin)
            <==> v.JsArray? && forall i | 0 <= i < |v.items| :: Accepts(convert, z, v.items[i], false, false)
  {
  }

  lemma UnfoldDefault(convert: Conversion, t: TypeInfo, ms: seq<Modifier>, v: JsValue, maxSet: bool, minSet: bool)
    requires ms != [] && ms[|ms| - 1].name == "default" && ms[|ms| - 1].args != []
    ensures var last, before := ms[|ms| - 1], ms[..|ms| - 1];
      Modified(convert, t, ms, v, maxSet, minSet) <==>
        Modified(convert, t, before, if v.JsUndefined? then ValueOf(last.args[0]) else v, false, false)
  {
    hide IsBare;
    hide OuterLayer;
    hide AtMost;
    hide AtLeast;
  }

  lemma UnfoldMax(convert: Conversion, t: TypeInfo, ms: seq<Modifier>, v: JsValue, maxSet: bool, minSet: bool)
    requires ms != [] && ms[|ms| - 1].name == "max" && ms[|ms| - 1].args != []
    ensures var last, before := ms[|ms| - 1], ms[..|ms| - 1];
      Modified(convert, t, ms, v, maxSet, minSet) <==>
        match OuterLayer(t, before)
        case StringLayer =>
          && Modified(convert, t, before, v, maxSet, minSet)
          && (v.JsString? ==> AtMost(convert, |v.s|, last.args[0]))
        case ArrayLayer =>
          && Modified(convert, t, before, v, true, minSet)
          && (!maxSet && v.JsArray? ==> AtMost(convert, |v.items|, last.args[0]))
        case _ => Modified(convert, t, before, v, maxSet, minSet)
  {
    hide IsBare;
    hide OuterLayer;
    hide AtMost;
    hide AtLeast;
  }

  lemma UnfoldMin(convert: Conversion, t: TypeInfo, ms: seq<Modifier>, v: JsValue, maxSet: bool, minSet: bool)
    requires ms != [] && ms[|ms| - 1].name == "min" && ms[|ms| - 1].args != []
    ensures var last, before := ms[|ms| - 1], ms[..|ms| - 1];
      Modified(convert, t, ms, v, maxSet, minSet) <==>
        match OuterLayer(t, before)
        case StringLayer =>
          && Modified(convert, t, before, v, maxSet, minSet)
          && (v.JsString? ==> AtLeast(convert, |v.s|, last.args[0]))
        case ArrayLayer =>
          && Modified(convert, t, before, v, maxSet, true)
          && (!minSet && v.JsArray? ==> AtLeast(convert, |v.items|, last.args[0]))
        case _ => Modified(convert, t, before, v, maxSet, minSet)
  {
    hide IsBare;
    hide OuterLayer;
    hide AtMost;
    hide AtLeast;
  }

  lemma UnfoldNothing(convert: Conversion, t: TypeInfo, ms: seq<Modifier>, v: JsValue, maxSet: bool, minSet: bool)
    requires ms != [] && ms[|ms| - 1].name in {"max", "min", "default"} && ms[|ms| - 1].args == []
    ensures Modified(convert, t, ms, v, maxSet, minSet)
            <==> Modified(convert, t, ms[..|ms| - 1], v, maxSet, minSet)
  {
    hide IsBare;
    hide OuterLayer;
  }

  lemma ApplyBound(z: Zod, m: Modifier)
    requires m.args != []
    ensures m.name == "max" ==> Apply(z, m) == Bounded(z, Max(m.args[0]))
    ensures m.name == "min" ==> Apply(z, m) == Bounded(z, Min(m.args[0]))
    ensures m.name == "default" ==> Apply(z, m) == ZodDefault(z, m.args[0])
  {
    hide Bounded;
  }

  lemma ApplyNothing(z: Zod, m: Modifier)
    requires m.args == [] && m.name in {"max", "min", "default"}
    ensures Apply(z, m) == z
  {
  }

  lemma LastWrapper(convert: Conversion, t: TypeInfo, y: Zod, ms: seq<Modifier>, v: JsValue,
                    maxSet: bool, minSet: bool)
    requires ms != [] && LayerOf(y) == OuterLayer(t, ms[..|ms| - 1])
    requires forall w, a, b :: Accepts(convert, y, w, a, b) <==> Modified(convert, t, ms[..|ms| - 1], w, a, b)
    requires ms[|ms| - 1].name == "optional" || ms[|ms| - 1].name == "array"
    ensures Accepts(convert, Apply(y, ms[|ms| - 1]), v, maxSet, minSet) <==> Modified(convert, t, ms, v, maxSet, minSet)
  {
    hide Accepts;
    hide IsBare;
    hide LayerOf;
    hide OuterLayer;
    hide Bounded;
    hide Whole;
    hide AtMost;
    hide AtLeast;
    WrappersAccept(convert, y, Num(0), v, maxSet, minSet);
  }

  lemma LastWhole(convert: Conversion, t: TypeInfo, y: Zod, ms: seq<Modifier>, v: JsValue,
                  maxSet: bool, minSet: bool)
    requires ms != [] && LayerOf(y) == OuterLayer(t, ms[..|ms| - 1])
    requires forall w, a, b :: Accepts(convert, y, w, a, b) <==> Modified(convert, t, ms[..|ms| - 1], w, a, b)
    requires ms[|ms| - 1].name == "int"
    ensures Accepts(convert, Apply(y, ms[|ms| - 1]), v, maxSet, minSet) <==> Modified(convert, t, ms, v, maxSet, minSet)
  {
    hide Accepts;
    hide IsBare;
    hide LayerOf;
    hide OuterLayer;
    hide Bounded;
    hide Whole;
    hide AtMost;
    hide AtLeast;
    WholeAccepts(convert, y, v, maxSet, minSet);
  }

  lemma LastDefault(convert: Conversion, t: TypeInfo, y: Zod, ms: seq<Modifier>, v: JsValue,
                    maxSet: bool, minSet: bool)
    requires ms != [] && LayerOf(y) == OuterLayer(t, ms[..|ms| - 1])
    requires var before := ms[..|ms| - 1];
      && (Accepts(convert, y, v, maxSet, minSet) <==> Modified(convert, t, before, v, maxSet, minSet))
      && (ms[|ms| - 1].args != [] ==>
            var w := if v.JsUndefined? then ValueOf(ms[|ms| - 1].args[0]) else v;
            Accepts(convert, y, w, false, false) <==> Modified(convert, t, before, w, false, false))
    requires ms[|ms| - 1].name == "default"
    ensures Accepts(convert, Apply(y, ms[|ms| - 1]), v, maxSet, minSet) <==> Modified(convert, t, ms, v, maxSet, minSet)
  {
    hide Accepts;
    hide IsBare;
    hide LayerOf;
    hide OuterLayer;
    hide Bounded;
    hide Whole;
    hide AtMost;
    hide AtLeast;
    hide Modified;
    hide Apply;
    if ms[|ms| - 1].args == [] {
      ApplyNothing(y, ms[|ms| - 1]);
      UnfoldNothing(convert, t, ms, v, maxSet, minSet);
    } else {
      ApplyBound(y, ms[|ms| - 1]);
      UnfoldDefault(convert, t, ms, v, maxSet, minSet);
      WrappersAccept(convert, y, ms[|ms| - 1].args[0], v, maxSet, minSet);
    }
  }

  lemma LastMax(convert: Conversion, t: TypeInfo, y: Zod, ms: seq<Modifier>, v: JsValue,
                maxSet: bool, minSet: bool)
    requires ms != [] && LayerOf(y) == OuterLayer(t, ms[..|ms| - 1])
    requires var before := ms[..|ms| - 1];
      && (Accepts(convert, y, v, maxSet, minSet) <==> Modified(convert, t, before, v, maxSet, minSet))
      && (Accepts(convert, y, v, true, minSet) <==> Modified(convert, t, before, v, true, minSet))
    requires ms[|ms| - 1].name == "max"
    ensures Accepts(convert, Apply(y, ms[|ms| - 1]), v, maxSet, minSet) <==> Modified(convert, t, ms, v, maxSet, minSet)
  {
    hide Accepts;
    hide IsBare;
    hide LayerOf;
    hide OuterLayer;
    hide Bounded;
    hide Whole;
    hide AtMost;
    hide AtLeast;
    hide Modified;
    hide Apply;
    if ms[|ms| - 1].args == [] {
      ApplyNothing(y, ms[|ms| - 1]);
      UnfoldNothing(convert, t, ms, v, maxSet, minSet);
    } else {
      ApplyBound(y, ms[|ms| - 1]);
      UnfoldMax(convert, t, ms, v, maxSet, minSet);
      BoundedAccepts(convert, y, Max(ms[|ms| - 1].args[0]), v, maxSet, minSet);
    }
  }

  lemma LastMin(convert: Conversion, t: TypeInfo, y: Zod, ms: seq<Modifier>, v: JsValue,
                maxSet: bool, minSet: bool)
    requires ms != [] && LayerOf(y) == OuterLayer(t, ms[..|ms| - 1])
    requires var before := ms[..|ms| - 1];
      && (Accepts(convert, y, v, maxSet, minSet) <==> Modified(convert, t, before, v, maxSet, minSet))
      && (Accepts(convert, y, v, maxSet, true) <==> Modified(convert, t, before, v, maxSet, true))
    requires ms[|ms| - 1].name == "min"
    ensures Accepts(convert, Apply(y, ms[|ms| - 1]), v, maxSet, minSet) <==> Modified(convert, t, ms, v, maxSet, minSet)
  {
    hide Accepts;
    hide IsBare;
    hide LayerOf;
    hide OuterLayer;
    hide Bounded;
    hide Whole;
    hide AtMost;
    hide AtLeast;
    hide Modified;
    hide Apply;
    if ms[|ms| - 1].args == [] {
      ApplyNothing(y, ms[|ms| - 1]);
      UnfoldNothing(convert, t, ms, v, maxSet, minSet);
    } else {
      ApplyBound(y, ms[|ms| - 1]);
      UnfoldMin(convert, t, ms, v, maxSet, minSet);
      BoundedAccepts(convert, y, Min(ms[|ms| - 1].args[0]), v, maxSet, minSet);
    }
  }

  lemma LastOther(convert: Conversion, t: TypeInfo, y: Zod, ms: seq<Modifier>, v: JsValue,
                  maxSet: bool, minSet: bool)
    requires ms != [] && LayerOf(y) == OuterLayer(t, ms[..|ms| - 1])
    requires forall w, a, b :: Accepts(convert, y, w, a, b) <==> Modified(convert, t, ms[..|ms| - 1], w, a, b)
    requires ms[|ms| - 1].name !in {"optional", "array", "int", "default", "max", "min"}
    ensures Accepts(convert, Apply(y, ms[|ms| - 1]), v, maxSet, minSet) <==> Modified(convert, t, ms, v, maxSet, minSet)
  {
    hide Accepts;
    hide IsBare;
    hide LayerOf;
    hide OuterLayer;
    hide Bounded;
    hide Whole;
    hide AtMost;
    hide AtLeast;
    if ms[|ms| - 1].args != [] { WrappersAccept(convert, y, ms[|ms| - 1].args[0], v, maxSet, minSet); }
  }

  // ---- types ----

  lemma BaseAgrees(convert: Conversion, t: TypeInfo)
    requires t.Base? && BuildBase(t.base, t.baseArgs).Built?
    ensures BareAgrees(convert, t, BuildBase(t.base, t.baseArgs).value)
  {
    hide InBound;
  }

  /** A built validator accepts exactly the values that conform to the type. */
  lemma {:induction false} BuiltAccepts(convert: Conversion, t: TypeInfo, v: JsValue)
    requires BuildZodType(t).Built?
    ensures Accepts(convert, BuildZodType(t).value, v, false, false) <==> Conforms(convert, t, v)
    decreases t, 1
  {
    hide Modified;
    hide BareAgrees;
    hide ApplyAll;
    hide Accepts;
    hide IsBare;
    var bare := BareValidator(t);
    BareValidatorAgrees(convert, t);
    ModifiedAccepts(convert, t, bare, ModifiersOf(t), v, false, false);
    NothingApplied(bare);
  }

  lemma NothingApplied(z: Zod)
    ensures ApplyAll(z, []) == z
  {
  }

  /** The validator before its modifiers are applied. */
  function BareValidator(t: TypeInfo): Zod
    requires BuildZodType(t).Built?
  {
    match t
    case Base(base, baseArgs, _) => BuildBase(base, baseArgs).value
    case NestedObject(props, _) => ZodObject(BuildFields(props).value)
    case ArrayOfObjects(props, _) => ZodArray(ZodObject(BuildFields(props).value), [])
    case SimpleArray(inner, _) => ZodArray(BuildZodType(inner).value, [])
  }

  lemma {:induction false} BareValidatorAgrees(convert: Conversion, t: TypeInfo)
    requires BuildZodType(t).Built?
    ensures BareAgrees(convert, t, BareValidator(t))
    decreases t, 0
  {
    hide ApplyAll;
    hide BuildFields;
    match t
    case Base(_, _, _) =>
      BaseAgrees(convert, t);
    case NestedObject(props, _) =>
      forall v, noMax, noMin
        ensures Accepts(convert, ZodObject(BuildFields(props).value), v, noMax, noMin) <==> IsObject(convert, props, v)
      {
        ObjectAccepts(convert, props, v, noMax, noMin);
      }
    case ArrayOfObjects(props, _) =>
      forall v, noMax, noMin
        ensures Accepts(convert, BareValidator(t), v, noMax, noMin) <==> IsBare(convert, t, v)
      {
        ArrayOfObjectsAccepts(convert, props, v, noMax, noMin);
      }
    case SimpleArray(inner, _) =>
      forall v, noMax, noMin
        ensures Accepts(convert, BareValidator(t), v, noMax, noMin) <==> IsBare(convert, t, v)
      {
        ArrayAccepts(convert, inner, v, noMax, noMin);
      }
  }

  lemma {:induction false} ArrayAccepts(convert: Conversion, inner: TypeInfo, v: JsValue, noMax: bool, noMin: bool)
    requires BuildZodType(inner).Built?
    ensures Accepts(convert, ZodArray(BuildZodType(inner).value, []), v, noMax, noMin)
            <==> v.JsArray? && forall i | 0 <= i < |v.items| :: Conforms(convert, inner, v.items[i])
    decreases inner, 2
  {
    hide Accepts;
    hide Conforms;
    hide BuildZodType;
    var z := BuildZodType(inner).value;
    WrappersAccept(convert, z, Num(0), v, noMax, noMin);
    if v.JsArray? {
      forall i | 0 <= i < |v.items|
        ensures Accepts(convert, z, v.items[i], false, false) <==> Conforms(convert, inner, v.items[i])
      {
        BuiltAccepts(convert, inner, v.items[i]);
      }
    }
  }

  lemma {:induction false} ArrayOfObjectsAccepts(convert: Conversion, props: seq<Property>, v: JsValue,
                                                 noMax: bool, noMin: bool)
    requires BuildFields(props).Built?
    ensures Accepts(convert, ZodArray(ZodObject(BuildFields(props).value), []), v, noMax, noMin)
            <==> v.JsArray? && forall i | 0 <= i < |v.items| :: IsObject(convert, props, v.items[i])
    decreases props, 3
  {
    hide Accepts;
    hide IsObject;
    hide BuildFields;
    var z := ZodObject(BuildFields(props).value);
    WrappersAccept(convert, z, Num(0), v, noMax, noMin);
    if v.JsArray? {
      forall i | 0 <= i < |v.items|
        ensures Accepts(convert, z, v.items[i], false, false) <==> IsObject(convert, props, v.items[i])
      {
        ObjectAccepts(convert, props, v.items[i], false, false);
      }
    }
  }

  /** The same for objects. */
  lemma {:induction false} ObjectAccepts(convert: Conversion, props: seq<Property>, v: JsValue, noMax: bool,
                                         noMin: bool)
    requires BuildFields(props).Built?
    ensures Accepts(convert, ZodObject(BuildFields(props).value), v, noMax, noMin) <==> IsObject(convert, props, v)
    decreases props, 2
  {
    hide Conforms;
    hide BuildZodType;
    FieldsBuildIff(props);
    var fields := BuildFields(props).value;
    if v.JsObject? {
      forall i | 0 <= i < |props|
        ensures Accepts(convert, fields[i].value, Get(v, fields[i].key), false, false)
                <==> Conforms(convert, props[i].value, Get(v, props[i].key))
      {
        BuiltAccepts(convert, props[i].value, Get(v, props[i].key));
      }
    }
  }

  /** From schema text to values: a printed schema that builds accepts exactly the objects whose properties conform to
      the types that are read, and those are the printed ones exactly when the schema is faithful. */
  lemma PrintedSchemaAccepts(convert: Conversion, props: seq<Property>, v: JsValue)
    requires PrintableProperties(props) && TidyProperties(props) && ParseZodSchema(PrintSchema(props)).Built?
    ensures var read := MeantProperties(props, []);
      && (read == props <==> FaithfulProperties(props))
      && (Accepts(convert, ParseZodSchema(PrintSchema(props)).value, v, false, false) <==> IsObject(convert, read, v))
  {
    hide MeantProperties;
    hide FaithfulProperties;
    hide PrintSchema;
    hide CleanSchemaString;
    hide ParseSchemaStructure;
    hide BuildFields;
    hide Accepts;
    hide IsObject;
    hide PrintableProperties;
    hide TidyProperties;
    var read := MeantProperties(props, []);
    CleanedSchemaRoundTrip(props);
    MeantPropertiesIff(props);
    ObjectAccepts(convert, read, v, false, false);
  }
}
