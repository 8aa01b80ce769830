/** The hand-written parser for schema texts. It terminates on every text. */
module ZodParser {
  import opened Wrappers
  import opened ZodText

  datatype Error =
    | MustStartWithObject
    | InvalidObject
    | InvalidArray
    | ExpectedZ
    | InvalidBaseType
    | InvalidModifier
    | UnsupportedType
    | UnsupportedModifier

  type Parsed<T> = Result<T, Error>

  datatype Arg = Num(n: nat) | Str(s: string) | Items(items: seq<string>) | Obj(fields: seq<ArgField>)

  datatype ArgField = ArgField(name: string, value: Arg)

  datatype Modifier = Modifier(name: string, args: seq<Arg>)

  /** What a type text is parsed into; `None` is an absent entry. */
  datatype TypeInfo =
    | Base(base: string, baseArgs: Option<seq<Arg>>, mods: seq<Modifier>)
    | NestedObject(properties: seq<Property>, modifiers: Option<seq<Modifier>>)
    | ArrayOfObjects(properties: seq<Property>, modifiers: Option<seq<Modifier>>)
    | SimpleArray(inner: TypeInfo, modifiers: Option<seq<Modifier>>)

  /** Properties in the order in which an object enumerates them. */
  datatype Property = Property(key: string, value: TypeInfo)

  const ALLOWED_TYPES := {
    "string", "number", "int", "boolean", "date", "object", "array", "enum", "optional", "max", "min", "describe",
    "default"
  }

  predicate IsAllowed(name: string) { name in ALLOWED_TYPES }

  // ---- splitting properties ----

  predicate IsQuote(c: char) { c == '"' || c == '\'' }

  predicate IsOpen(c: char) { c == '(' || c == '[' || c == '{' }

  predicate IsClose(c: char) { c == ')' || c == ']' || c == '}' }

  /** Whether the text after `c` is inside a string, and which quote opened it. */
  function QuoteStep(quote: Option<char>, prev: char, c: char): Option<char> {
    if quote.None? then (if IsQuote(c) then Some(c) else None)
    else if quote.value == c && prev != '\\' then None
    else quote
  }

  datatype Scan = Scan(depth: int, quote: Option<char>, prev: char)

  const SCAN_START := Scan(0, None, ' ')

  function ScanStep(s: Scan, c: char): Scan {
    Scan(s.depth + (if s.quote.Some? then 0 else if IsOpen(c) then 1 else if IsClose(c) then -1 else 0),
         QuoteStep(s.quote, s.prev, c), c)
  }

  predicate SplitsAt(s: Scan, c: char) { s.quote.None? && c == ',' && s.depth == 0 }

  /** The pieces still to come, `current` being the part of the next one that has been read. */
  function Pieces(content: string, current: string, s: Scan): (r: seq<string>)
    ensures forall i | 0 <= i < |r| :: |r[i]| <= |current| + |content|
    decreases |content|
  {
    if content == "" then (if Trim(current) != "" then [Trim(current)] else [])
    else if SplitsAt(s, content[0]) then [Trim(current)] + Pieces(content[1..], "", ScanStep(s, content[0]))
    else Pieces(content[1..], current + [content[0]], ScanStep(s, content[0]))
  }

  function SplitProperties(content: string): (r: seq<string>)
    ensures forall i | 0 <= i < |r| :: |r[i]| <= |content|
  {
    Pieces(content, "", SCAN_START)
  }

  method SplitPropertiesLoop(content: string) returns (properties: seq<string>)
    ensures properties == SplitProperties(content)
  {
    properties := [];
    var current := "";
    var depth, quote := 0, None;
    ghost var scan := SCAN_START;
    assert content[0..] == content;
    for i := 0 to |content|
      invariant scan == Scan(depth, quote, if i == 0 then ' ' else content[i - 1])
      invariant properties + Pieces(content[i..], current, scan) == SplitProperties(content)
    {
      var c := content[i];
      assert content[i..][0] == c && content[i..][1..] == content[i + 1..];
      scan := ScanStep(scan, c);
      if quote.None? && IsQuote(c) {
        quote := Some(c);
      } else if quote.Some? && c == quote.value && (i == 0 || content[i - 1] != '\\') {
        quote := None;
      } else if quote.None? {
        if IsOpen(c) {
          depth := depth + 1;
        } else if IsClose(c) {
          depth := depth - 1;
        } else if c == ',' && depth == 0 {
          properties := properties + [Trim(current)];
          current := "";
          continue;
        }
      }
      current := current + [c];
    }
    if Trim(current) != "" {
      properties := properties + [Trim(current)];
    }
  }

  // ---- arguments ----

  function Slice(s: string): string { if |s| < 2 then "" else s[1..|s| - 1] }

  predicate Quoted(s: string) { s != "" && s[0] == '"' && s[|s| - 1] == '"' }

  predicate Bracketed(s: string) { s != "" && s[0] == '[' && s[|s| - 1] == ']' }

  predicate Braced(s: string) { s != "" && s[0] == '{' && s[|s| - 1] == '}' }

  predicate IsNumber(s: string) { s != "" && Every(s, IsDigit) }

  /** Drops one quote at the start and one at the end. */
  function StripQuotes(s: string): string {
    var t := if s != "" && IsQuote(s[0]) then s[1..] else s;
    if t != "" && IsQuote(t[|t| - 1]) then t[..|t| - 1] else t
  }

  function RemoveQuotes(s: string): string {
    if s == "" then "" else (if IsQuote(s[0]) then "" else [s[0]]) + RemoveQuotes(s[1..])
  }

  function ItemsFrom(content: string, current: string, quote: Option<char>, prev: char): seq<string>
    decreases |content|
  {
    if content == "" then (if Trim(current) != "" then [StripQuotes(Trim(current))] else [])
    else
      var c := content[0];
      if quote.None? && c == ',' then
        [StripQuotes(Trim(current))] + ItemsFrom(content[1..], "", None, c)
      else ItemsFrom(content[1..], current + [c], QuoteStep(quote, prev, c), c)
  }

  function ParseArrayContent(content: string): seq<string> { ItemsFrom(content, "", None, ' ') }

  method ParseArrayContentLoop(content: string) returns (items: seq<string>)
    ensures items == ParseArrayContent(content)
  {
    items := [];
    var current := "";
    var quote: Option<char> := None;
    assert content[0..] == content;
    for i := 0 to |content|
      invariant items + ItemsFrom(content[i..], current, quote, if i == 0 then ' ' else content[i - 1])
             == ParseArrayContent(content)
    {
      var c := content[i];
      assert content[i..][0] == c && content[i..][1..] == content[i + 1..];
      if quote.None? && IsQuote(c) {
        quote := Some(c);
        current := current + [c];
      } else if quote.Some? && c == quote.value && (i == 0 || content[i - 1] != '\\') {
        quote := None;
        current := current + [c];
      } else if quote.None? && c == ',' {
        items := items + [StripQuotes(Trim(current))];
        current := "";
      } else {
        current := current + [c];
      }
    }
    if Trim(current) != "" {
      items := items + [StripQuotes(Trim(current))];
    }
  }

  function ParseScalar(arg: string): Arg {
    if IsNumber(arg) then Num(ParseDigits(arg))
    else if Quoted(arg) then Str(Slice(arg))
    else Str(arg)
  }

  /** The arguments between the outer parentheses. */
  function ParseArguments(argsStr: string): seq<Arg> {
    var inner := Trim(Slice(argsStr));
    if inner == "" then []
    else if Bracketed(inner) then [Items(ParseArrayContent(Slice(inner)))]
    else if IsNumber(inner) then [Num(ParseDigits(inner))]
    else if Quoted(inner) then [Str(Slice(inner))]
    else
      var parts := Split(inner, ',');
      seq(|parts|, i requires 0 <= i < |parts| => ParseScalar(Trim(parts[i])))
  }

  function PutField(fields: seq<ArgField>, name: string, value: Arg): seq<ArgField> {
    if name == "__proto__" then fields
    else if fields == [] then [ArgField(name, value)]
    else if fields[0].name == name then [ArgField(name, value)] + fields[1..]
    else if ComesFirst(name, fields[0].name) then [ArgField(name, value)] + fields
    else [fields[0]] + PutField(fields[1..], name, value)
  }

  function ParseFields(props: seq<string>, fields: seq<ArgField>): seq<ArgField>
    decreases |props|
  {
    if props == [] then fields
    else
      var colon := Find(props[0], ':');
      if colon == |props[0]| then ParseFields(props[1..], fields)
      else
        var value := Trim(props[0][colon + 1..]);
        ParseFields(props[1..], PutField(fields, RemoveQuotes(Trim(props[0][..colon])),
          if Bracketed(value) then Items(ParseArrayContent(Slice(value)))
          else if Quoted(value) then Str(Slice(value))
          else if IsNumber(value) then Num(ParseDigits(value))
          else Str(value)))
  }

  function ParseObjectLiteral(objStr: string): Arg {
    var content := Trim(Slice(objStr));
    Obj(if content == "" then [] else ParseFields(SplitProperties(content), []))
  }

  function ParseComplexArguments(argsStr: string): seq<Arg> {
    var inner := Trim(Slice(argsStr));
    if inner == "" then []
    else if Braced(inner) then [ParseObjectLiteral(inner)]
    else ParseArguments(argsStr)
  }

  // ---- calls and modifiers ----

  datatype Call = Call(name: string, args: Option<string>)

  /** A word, optionally followed by a parenthesised rest on one line. */
  function MatchCall(part: string): Option<Call> {
    var n := WordLength(part);
    var rest := part[n..];
    if n == 0 then None
    else if rest == "" then Some(Call(part, None))
    else if |rest| >= 2 && rest[0] == '(' && rest[|rest| - 1] == ')' && Every(Slice(rest), c => !IsLineBreak(c))
    then Some(Call(part[..n], Some(rest)))
    else None
  }

  function CallArguments(c: Call): seq<Arg> {
    if c.args.Some? then ParseArguments(c.args.value) else []
  }

  /** The modifiers of a base type: any word will do. */
  function ParseModifiers(parts: seq<string>): Parsed<seq<Modifier>> {
    if parts == [] then Ok([])
    else
      var call := MatchCall(Trim(parts[0]));
      if call.None? then Err(InvalidModifier)
      else
        var rest := ParseModifiers(parts[1..]);
        if rest.Err? then rest
        else Ok([Modifier(call.value.name, CallArguments(call.value))] + rest.value)
  }

  /** The modifiers of an array: untrimmed, and only allowed words. */
  function ParseArrayModifiers(parts: seq<string>): Parsed<seq<Modifier>> {
    if parts == [] then Ok([])
    else
      var call := MatchCall(parts[0]);
      if call.None? then Err(InvalidModifier)
      else if !IsAllowed(call.value.name) then Err(UnsupportedModifier)
      else
        var rest := ParseArrayModifiers(parts[1..]);
        if rest.Err? then rest
        else Ok([Modifier(call.value.name, CallArguments(call.value))] + rest.value)
  }

  /** How far the parenthesis that matches the first one reaches. */
  function CloseParen(s: string, depth: int): (end: Option<nat>)
    ensures end.Some? ==> 0 < end.value <= |s|
    decreases |s|
  {
    if s == "" then None
    else if s[0] == ')' && depth == 1 then Some(1)
    else
      var rest := CloseParen(s[1..], depth + if s[0] == '(' then 1 else if s[0] == ')' then -1 else 0);
      if rest.None? then None else Some(rest.value + 1)
  }

  /** How far an object reaches: to the parenthesis that closes it after its braces are balanced. */
  function CloseObject(s: string, braceDepth: int, parenDepth: int, foundOpenBrace: bool): (end: Option<nat>)
    ensures end.Some? ==> 0 < end.value <= |s|
    decreases |s|
  {
    if s == "" then None
    else
      var c := s[0];
      if c == ')' && foundOpenBrace && braceDepth == 0 && parenDepth == 0 then Some(1)
      else
        var rest := CloseObject(s[1..],
          braceDepth + (if c == '{' then 1 else if c == '}' then -1 else 0),
          parenDepth + (if !foundOpenBrace then 0 else if c == '(' then 1 else if c == ')' then -1 else 0),
          foundOpenBrace || c == '{');
        if rest.None? then None else Some(rest.value + 1)
  }

  method FindArrayEnd(typeStr: string, startIndex: nat) returns (arrayEndIndex: int)
    requires startIndex <= |typeStr|
    ensures var end := CloseParen(typeStr[startIndex..], 0);
            arrayEndIndex == if end.None? then -1 else startIndex + end.value
  {
    var depth := 0;
    arrayEndIndex := -1;
    for i := startIndex to |typeStr|
      invariant var end := CloseParen(typeStr[startIndex..], 0);
                var rest := CloseParen(typeStr[i..], depth);
                if rest.None? then end.None? else end == Some(rest.value + i - startIndex)
    {
      assert typeStr[i..][0] == typeStr[i] && typeStr[i..][1..] == typeStr[i + 1..];
      if typeStr[i] == '(' {
        depth := depth + 1;
      } else if typeStr[i] == ')' {
        depth := depth - 1;
        if depth == 0 {
          arrayEndIndex := i + 1;
          return;
        }
      }
    }
  }

  method FindObjectEnd(typeStr: string, startIndex: nat) returns (objectEndIndex: int)
    requires startIndex <= |typeStr|
    ensures var end := CloseObject(typeStr[startIndex..], 0, 0, false);
            objectEndIndex == if end.None? then -1 else startIndex + end.value
  {
    var braceDepth, parenDepth, foundOpenBrace := 0, 0, false;
    objectEndIndex := -1;
    for i := startIndex to |typeStr|
      invariant var end := CloseObject(typeStr[startIndex..], 0, 0, false);
                var rest := CloseObject(typeStr[i..], braceDepth, parenDepth, foundOpenBrace);
                if rest.None? then end.None? else end == Some(rest.value + i - startIndex)
    {
      var c := typeStr[i];
      assert typeStr[i..][0] == c && typeStr[i..][1..] == typeStr[i + 1..];
      if c == '{' {
        braceDepth := braceDepth + 1;
        foundOpenBrace := true;
      } else if c == '}' {
        braceDepth := braceDepth - 1;
      } else if c == '(' && foundOpenBrace {
        parenDepth := parenDepth + 1;
      } else if c == ')' && foundOpenBrace {
        if braceDepth == 0 && parenDepth == 0 {
          objectEndIndex := i + 1;
          return;
        }
        parenDepth := parenDepth - 1;
      }
    }
  }

  /** One modifier of an object, and how much text it takes with the dot that may follow it. */
  datatype ReadModifier = ReadModifier(modifier: Modifier, used: nat)

  /** Length of the parenthesised text at the start of `s`: zero when there is none, or it is not closed. */
  function ArgumentsLength(s: string): (n: nat)
    ensures n <= |s|
  {
    if s == "" || s[0] != '(' then 0
    else
      var end := CloseParen(s, 0);
      if end.None? then 0 else end.value
  }

  function NextModifier(rest: string): (r: ReadModifier)
    requires WordLength(rest) > 0
    ensures 0 < r.used <= |rest|
  {
    var n := WordLength(rest);
    var used := ArgumentsLength(rest[n..]);
    var args := if used > 0 then ParseComplexArguments(rest[n..n + used]) else [];
    var next := n + used;
    ReadModifier(Modifier(rest[..n], args), if next < |rest| && rest[next] == '.' then next + 1 else next)
  }

  /** The modifiers of an object: read up to the first text that is no word. */
  function ParseObjectModifiers(rest: string): Parsed<seq<Modifier>>
    decreases |rest|
  {
    if WordLength(rest) == 0 then Ok([])
    else
      var read := NextModifier(rest);
      if !IsAllowed(read.modifier.name) then Err(UnsupportedModifier)
      else
        var more := ParseObjectModifiers(rest[read.used..]);
        if more.Err? then more else Ok([read.modifier] + more.value)
  }

  method ReadArguments(remainingPart: string, start: nat) returns (args: seq<Arg>, i: nat)
    requires start <= |remainingPart|
    ensures i == start + ArgumentsLength(remainingPart[start..])
    ensures args == if start < i <= |remainingPart| then ParseComplexArguments(remainingPart[start..i]) else []
  {
    hide ParseComplexArguments;
    args, i := [], start;
    if i < |remainingPart| && remainingPart[i] == '(' {
      var end := FindArrayEnd(remainingPart, i);
      if end != -1 {
        args := ParseComplexArguments(remainingPart[i..end]);
        i := end;
      }
    }
  }

  method ReadOneModifier(remainingPart: string, start: nat) returns (modifier: Modifier, i: nat)
    requires start <= |remainingPart| && WordLength(remainingPart[start..]) > 0
    ensures start < i <= |remainingPart|
    ensures ReadModifier(modifier, i - start) == NextModifier(remainingPart[start..])
  {
    hide ParseComplexArguments;
    hide ArgumentsLength;
    hide WordLength;
    ghost var rest := remainingPart[start..];
    var n := WordLength(remainingPart[start..]);
    var modName := remainingPart[start..start + n];
    var modArgs;
    assert rest[n..] == remainingPart[start + n..] && rest[..n] == modName;
    modArgs, i := ReadArguments(remainingPart, start + n);
    assert rest[n..i - start] == remainingPart[start + n..i];
    modifier := Modifier(modName, modArgs);
    assert i - start < |rest| ==> rest[i - start] == remainingPart[i];
    if i < |remainingPart| && remainingPart[i] == '.' {
      i := i + 1;
    }
  }

  method ParseObjectModifiersLoop(remainingPart: string) returns (r: Parsed<seq<Modifier>>)
    requires remainingPart != ""
    ensures r == ParseObjectModifiers(remainingPart[1..])
  {
    hide NextModifier;
    hide IsAllowed;
    var modifiers: seq<Modifier> := [];
    var i := 1;
    ghost var all := ParseObjectModifiers(remainingPart[1..]);
    assert all.Ok? ==> modifiers + all.value == all.value;
    while i < |remainingPart|
      invariant 1 <= i <= |remainingPart|
      invariant var rest := ParseObjectModifiers(remainingPart[i..]);
                all == if rest.Err? then rest else Ok(modifiers + rest.value)
    {
      if WordLength(remainingPart[i..]) == 0 { break; }
      ghost var start, found := i, modifiers;
      var modifier;
      modifier, i := ReadOneModifier(remainingPart, i);
      assert remainingPart[start..][i - start..] == remainingPart[i..];
      if !IsAllowed(modifier.name) { return Err(UnsupportedModifier); }
      modifiers := modifiers + [modifier];
      ghost var more := ParseObjectModifiers(remainingPart[i..]);
      assert more.Ok? ==> found + ([modifier] + more.value) == modifiers + more.value;
    }
    assert ParseObjectModifiers(remainingPart[i..]) == Ok([]);
    assert modifiers + [] == modifiers;
    return Ok(modifiers);
  }

  // ---- the texts inside z.object({...}) and z.array(...) ----

  const OBJECT := "z.object("
  const ARRAY := "z.array("

  /** A closing brace that only white space separates from a closing parenthesis. */
  predicate ClosesObject(s: string, q: nat)
    requires q < |s|
  {
    var rest := s[q + 1..];
    s[q] == '}' && Blanks(rest) < |rest| && rest[Blanks(rest)] == ')'
  }

  /** The last such brace at or after `lo`. */
  function LastClose(s: string, lo: nat, hi: nat): (q: Option<nat>)
    requires lo <= hi <= |s|
    ensures q.Some? ==> lo <= q.value < hi && ClosesObject(s, q.value)
    decreases hi
  {
    if lo == hi then None
    else if ClosesObject(s, hi - 1) then Some(hi - 1)
    else LastClose(s, lo, hi - 1)
  }

  /** The pattern z.object( { ... } ) tried at the start of `s`; the part between the braces is as long as can be. */
  function ObjectContentHere(s: string): (r: Option<string>)
    ensures r.Some? ==> |r.value| + 9 < |s|
  {
    if !(OBJECT <= s) then None
    else
      var open := 9 + Blanks(s[9..]);
      if open == |s| || s[open] != '{' then None
      else
        var q := LastClose(s, open + 1, |s|);
        if q.None? then None else Some(s[open + 1..q.value])
  }

  /** The same at the first position where it matches. */
  function ObjectContent(s: string): (r: Option<string>)
    ensures r.Some? ==> |r.value| + 9 < |s|
    decreases |s|
  {
    var here := ObjectContentHere(s);
    if here.Some? || s == "" then here else ObjectContent(s[1..])
  }

  /** The pattern z.array( ... ) up to the end of the text. */
  function ArrayContent(s: string): (r: Option<string>)
    ensures r.Some? ==> |r.value| + 8 < |s|
    decreases |s|
  {
    if ARRAY <= s && |s| > 8 && s[|s| - 1] == ')' then Some(s[8..|s| - 1])
    else if s == "" then None
    else ArrayContent(s[1..])
  }

  datatype Extracted = Extracted(part: string, modifiers: seq<Modifier>, hasModifiers: bool)

  function ExtractArrayWithModifiers(typeStr: string): (r: Parsed<Extracted>)
    requires ARRAY <= typeStr
    ensures r.Ok? ==> |r.value.part| <= |typeStr|
  {
    var end := CloseParen(typeStr[7..], 0);
    if end.None? then Ok(Extracted(typeStr, [], false))
    else
      var part, remaining := typeStr[..7 + end.value], typeStr[7 + end.value..];
      if remaining == "" || remaining[0] != '.' then Ok(Extracted(typeStr, [], false))
      else
        var modifiers := ParseArrayModifiers(Split(remaining[1..], '.'));
        if modifiers.Err? then Err(modifiers.error) else Ok(Extracted(part, modifiers.value, true))
  }

  function ExtractObjectWithModifiers(typeStr: string): (r: Parsed<Extracted>)
    requires OBJECT <= typeStr
    ensures r.Ok? ==> |r.value.part| <= |typeStr|
  {
    var end := CloseObject(typeStr[8..], 0, 0, false);
    if end.None? then Ok(Extracted(typeStr, [], false))
    else
      var part, remaining := typeStr[..8 + end.value], typeStr[8 + end.value..];
      if remaining == "" || remaining[0] != '.' then Ok(Extracted(typeStr, [], false))
      else
        var modifiers := ParseObjectModifiers(remaining[1..]);
        if modifiers.Err? then Err(modifiers.error)
        else Ok(Extracted(part, modifiers.value, modifiers.value != []))
  }

  // ---- types ----

  /** Sets a property: array indices come first and in ascending order, other keys in the order in which they were
      first set; the empty key is dropped, and setting `__proto__` makes no property. */
  function PutProperty(props: seq<Property>, key: string, value: TypeInfo): seq<Property> {
    if key == "" || key == "__proto__" then props
    else if props == [] then [Property(key, value)]
    else if props[0].key == key then [Property(key, value)] + props[1..]
    else if ComesFirst(key, props[0].key) then [Property(key, value)] + props
    else [props[0]] + PutProperty(props[1..], key, value)
  }

  function ParseObjectProperties(content: string): Parsed<seq<Property>>
    decreases |content|, 3, 0
  {
    ParseEach(SplitProperties(content), [], |content|)
  }

  function ParseEach(pieces: seq<string>, props: seq<Property>, bound: nat): Parsed<seq<Property>>
    requires forall i | 0 <= i < |pieces| :: |pieces[i]| <= bound
    decreases bound, 2, |pieces|
  {
    if pieces == [] then Ok(props)
    else
      var prop := pieces[0];
      var colon := Find(prop, ':');
      if colon == |prop| then ParseEach(pieces[1..], props, bound)
      else
        var value := ParseZodType(Trim(prop[colon + 1..]));
        if value.Err? then Err(value.error)
        else ParseEach(pieces[1..], PutProperty(props, RemoveQuotes(Trim(prop[..colon])), value.value), bound)
  }

  function ParseZodType(typeStr: string): Parsed<TypeInfo>
    decreases |typeStr|, 1, 0
  {
    if OBJECT <= typeStr then ParseObject(typeStr)
    else if ARRAY <= typeStr then
      var extracted := ExtractArrayWithModifiers(typeStr);
      if extracted.Err? then Err(extracted.error)
      else if !extracted.value.hasModifiers then ParseArray(typeStr)
      else
        var parsed := ParseArray(extracted.value.part);
        if parsed.Err? then parsed else Ok(WithModifiers(parsed.value, extracted.value.modifiers))
    else ParseBase(Split(typeStr, '.'))
  }

  function WithModifiers(t: TypeInfo, modifiers: seq<Modifier>): TypeInfo {
    match t
    case ArrayOfObjects(props, _) => ArrayOfObjects(props, Some(modifiers))
    case SimpleArray(inner, _) => SimpleArray(inner, Some(modifiers))
    case _ => t
  }

  function ParseObject(typeStr: string): Parsed<TypeInfo>
    requires OBJECT <= typeStr
    decreases |typeStr|, 0, 0
  {
    var extracted := ExtractObjectWithModifiers(typeStr);
    if extracted.Err? then Err(extracted.error)
    else
      var has := extracted.value.hasModifiers;
      var content := ObjectContent(if has then extracted.value.part else typeStr);
      if content.None? then Err(InvalidObject)
      else
        var props := ParseObjectProperties(content.value);
        if props.Err? then Err(props.error)
        else Ok(NestedObject(props.value, if has then Some(extracted.value.modifiers) else None))
  }

  function ParseBase(parts: seq<string>): Parsed<TypeInfo>
    requires parts != []
  {
    if Trim(parts[0]) != "z" then Err(ExpectedZ)
    else if |parts| == 1 then Ok(Base("", None, []))
    else
      var call := MatchCall(Trim(parts[1]));
      if call.None? then Err(InvalidBaseType)
      else
        var mods := ParseModifiers(parts[2..]);
        if mods.Err? then Err(mods.error)
        else
          var args := if call.value.args.Some? then Some(ParseArguments(call.value.args.value)) else None;
          Ok(Base(call.value.name, args, mods.value))
  }

  function ParseArray(typeStr: string): Parsed<TypeInfo>
    decreases |typeStr|, 0, 0
  {
    var found := ArrayContent(typeStr);
    if found.None? then Err(InvalidArray)
    else
      var content := Trim(found.value);
      if OBJECT <= content then
        var inside := ObjectContent(content);
        if inside.None? then Err(InvalidObject)
        else
          var props := ParseObjectProperties(inside.value);
          if props.Err? then Err(props.error)
          else
            var invalid := ValidateProperties(props.value);
            if invalid.Some? then Err(invalid.value) else Ok(ArrayOfObjects(props.value, None))
      else
        var inner := ParseZodType(content);
        if inner.Err? then inner else Ok(SimpleArray(inner.value, None))
  }

  /** The first unsupported base type or modifier, if there is one. */
  function ValidateTypeInfo(t: TypeInfo): Option<Error>
    decreases t
  {
    match t
    case NestedObject(props, _) => ValidateProperties(props)
    case ArrayOfObjects(props, _) => ValidateProperties(props)
    case SimpleArray(inner, _) => ValidateTypeInfo(inner)
    case Base(base, _, mods) =>
      if !IsAllowed(base) then Some(UnsupportedType)
      else if exists i | 0 <= i < |mods| :: !IsAllowed(mods[i].name) then Some(UnsupportedModifier)
      else None
  }

  function ValidateProperties(props: seq<Property>): Option<Error>
    decreases props
  {
    if props == [] then None
    else
      var first := ValidateTypeInfo(props[0].value);
      if first.Some? then first else ValidateProperties(props[1..])
  }

  /** `parseSchemaStructure`: the whole text is an object. */
  function ParseSchemaStructure(schema: string): Parsed<seq<Property>> {
    if !(OBJECT <= schema) then Err(MustStartWithObject)
    else
      var content := ObjectContent(schema);
      if content.None? then Err(InvalidObject) else ParseObjectProperties(content.value)
  }
}
