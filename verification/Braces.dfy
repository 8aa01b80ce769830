/** Prompt variables in curly braces, and the rewriter that doubles single braces around a colon. */
module Braces {
  import opened Nesting

  predicate IsBrace(c: char) { c == '{' || c == '}' }

  predicate BraceFree(s: string) { forall i | 0 <= i < |s| :: !IsBrace(s[i]) }

  /** Appends `t` to the text collected by every brace that is still open. */
  function Extend(open: seq<string>, t: string): (r: seq<string>)
    ensures |r| == |open|
  {
    seq(|open|, i requires 0 <= i < |open| => open[i] + t)
  }

  /** What closing a brace around `content` reports: a name with a colon is not a variable. */
  function Report(content: string): seq<string> {
    if ':' in content then [] else [content]
  }

  /** The variables found in `s`, read one character at a time. `esc` says that the previous character
      is a backslash; `open[i]` is the text read since the i-th open brace. */
  function Variables(s: string, esc: bool, open: seq<string>): seq<string>
    decreases |s|
  {
    if s == "" then []
    else if s[0] == '{' && !esc then Variables(s[1..], false, Extend(open, "{") + [""])
    else if s[0] == '}' && !esc && open != [] then
      Report(open[|open| - 1]) + Variables(s[1..], false, Extend(open[..|open| - 1], "}"))
    else Variables(s[1..], s[0] == '\\', Extend(open, s[..1]))
  }

  /** The text between each start index in `starts` and position `i`. */
  function Slices(s: string, starts: seq<nat>, i: nat): seq<string>
    requires i <= |s|
    requires forall j | 0 <= j < |starts| :: starts[j] <= i
  {
    seq(|starts|, j requires 0 <= j < |starts| => s[starts[j]..i])
  }

  lemma SlicesExtend(s: string, starts: seq<nat>, i: nat, n: nat)
    requires i + n <= |s|
    requires forall j | 0 <= j < |starts| :: starts[j] <= i
    ensures Slices(s, starts, i + n) == Extend(Slices(s, starts, i), s[i..i + n])
  {
    forall j | 0 <= j < |starts|
      ensures s[starts[j]..i + n] == s[starts[j]..i] + s[i..i + n]
    {
    }
  }

  /** The scanner: an index into the text and a stack of start positions. */
  method GetInputVariables(paramValue: string) returns (inputVariables: seq<string>)
    ensures inputVariables == Variables(paramValue, false, [])
  {
    var s := paramValue;
    assert s[0..] == s && Slices(s, [], 0) == [];
    var stack: seq<nat> := [];
    inputVariables := [];
    var i := 0;
    while i < |s|
      invariant i <= |s|
      invariant forall j | 0 <= j < |stack| :: stack[j] <= i
      invariant inputVariables + Remaining(s, stack, i, false) == Remaining(s, [], 0, false)
    {
      if s[i] == '\\' && i + 1 < |s| && IsBrace(s[i + 1]) {
        SkipEscapedBrace(s, stack, i);
        i := i + 2;
        continue;
      }
      ScanKeepsTotal(inputVariables, s, stack, i);
      ghost var found, next := inputVariables + Reported(s, stack, i), NextStack(s, stack, i);
      if s[i] == '{' {
        stack := stack + [i + 1];
      } else if s[i] == '}' && |stack| > 0 {
        var top := |stack| - 1;
        var variableFullPath := s[stack[top]..i];
        if ':' !in variableFullPath {
          inputVariables := inputVariables + [variableFullPath];
        }
        stack := stack[..top];
      }
      assert inputVariables == found && stack == next;
      i := i + 1;
    }
  }

  /** The start positions after the scanner has read the unescaped character at `i`. */
  function NextStack(s: string, stack: seq<nat>, i: nat): seq<nat>
    requires i < |s|
  {
    if s[i] == '{' then stack + [i + 1]
    else if s[i] == '}' && stack != [] then stack[..|stack| - 1]
    else stack
  }

  /** What the scanner reports when it reads the unescaped character at `i`. */
  function Reported(s: string, stack: seq<nat>, i: nat): seq<string>
    requires i < |s| && forall j | 0 <= j < |stack| :: stack[j] <= i
  {
    if s[i] == '}' && stack != [] then Report(s[stack[|stack| - 1]..i]) else []
  }

  /** What is still to be reported from position `i` on. */
  ghost function Remaining(s: string, stack: seq<nat>, i: nat, esc: bool): seq<string>
    requires i <= |s| && forall j | 0 <= j < |stack| :: stack[j] <= i
  {
    Variables(s[i..], esc, Slices(s, stack, i))
  }

  lemma NextStackIsStep(s: string, stack: seq<nat>, i: nat)
    requires i < |s| && forall j | 0 <= j < |stack| :: stack[j] <= i
    ensures Reported(s, stack, i) == StepReport(s[i], false, Slices(s, stack, i))
    ensures Slices(s, NextStack(s, stack, i), i + 1) == StepOpen(s[i], false, Slices(s, stack, i))
  {
    var open := Slices(s, stack, i);
    assert s[i..i + 1] == [s[i]];
    SlicesExtend(s, stack, i, 1);
    if s[i] == '{' {
      assert s[i + 1..i + 1] == "";
    } else if s[i] == '}' && stack != [] {
      var below := stack[..|stack| - 1];
      SlicesExtend(s, below, i, 1);
      assert Slices(s, below, i) == open[..|stack| - 1];
    }
  }

  lemma ScanStep(s: string, stack: seq<nat>, i: nat)
    requires i < |s| && forall j | 0 <= j < |stack| :: stack[j] <= i
    ensures var quoting := s[i] == '\\' && i + 1 < |s| && IsBrace(s[i + 1]);
            Remaining(s, stack, i, false)
                == Reported(s, stack, i) + Remaining(s, NextStack(s, stack, i), i + 1, quoting)
  {
    assert s[i..] == [s[i]] + s[i + 1..];
    VariablesStep(s[i], s[i + 1..], false, Slices(s, stack, i));
    NextStackIsStep(s, stack, i);
    if s[i] == '\\' && !(i + 1 < |s| && IsBrace(s[i + 1])) {
      EscapeOnlyMattersAtBraces(s[i + 1..], Slices(s, NextStack(s, stack, i), i + 1));
    }
  }

  /** The loop invariant of the scanner survives one unescaped character. */
  lemma ScanKeepsTotal(found: seq<string>, s: string, stack: seq<nat>, i: nat)
    requires i < |s| && forall j | 0 <= j < |stack| :: stack[j] <= i
    requires !(s[i] == '\\' && i + 1 < |s| && IsBrace(s[i + 1]))
    ensures found + Remaining(s, stack, i, false)
            == (found + Reported(s, stack, i)) + Remaining(s, NextStack(s, stack, i), i + 1, false)
  {
    ScanStep(s, stack, i);
  }

  lemma SkipEscapedBrace(s: string, stack: seq<nat>, i: nat)
    requires i + 1 < |s| && s[i] == '\\' && IsBrace(s[i + 1])
    requires forall j | 0 <= j < |stack| :: stack[j] <= i
    ensures Remaining(s, stack, i, false) == Remaining(s, stack, i + 2, false)
  {
    ScanStep(s, stack, i);
    SlicesExtend(s, stack, i + 1, 1);
    assert s[i + 1..] == [s[i + 1]] + s[i + 2..] && s[i + 1..i + 2] == [s[i + 1]];
    VariablesStep(s[i + 1], s[i + 2..], true, Slices(s, stack, i + 1));
  }

  lemma EscapeOnlyMattersAtBraces(s: string, open: seq<string>)
    requires s == "" || !IsBrace(s[0])
    ensures Variables(s, true, open) == Variables(s, false, open)
  {
  }

  // ---- what the scanner finds, by positions ----

  /** A brace counts unless a backslash stands in front of it. */
  function BraceSteps(s: string): (steps: Steps)
    ensures |steps| == |s|
  {
    seq(|s|, i requires 0 <= i < |s| =>
      if i > 0 && s[i - 1] == '\\' then 0 else if s[i] == '{' then 1 else if s[i] == '}' then -1 else 0)
  }

  /** The positions between two braces that belong together make a variable, unless they hold a colon. */
  ghost predicate IsVariable(s: string, i: nat, j: nat) {
    i < j < |s| && Matches(BraceSteps(s), i, j) && ':' !in s[i + 1..j]
  }

  /** The variables that end at `j` or behind it, in the order of their ends. */
  ghost function VariablesFrom(s: string, j: nat): seq<string>
    requires j <= |s|
    decreases |s| - j
  {
    if j == |s| then []
    else
      (if exists i: nat :: IsVariable(s, i, j) then
         var i: nat :| IsVariable(s, i, j);
         [s[i + 1..j]]
       else [])
      + VariablesFrom(s, j + 1)
  }

  /** The start of the text behind each position. */
  function Behind(stack: seq<nat>): seq<nat> { seq(|stack|, k requires 0 <= k < |stack| => stack[k] + 1) }

  lemma StackIsBelow(s: Steps, n: nat, stack: seq<nat>)
    requires n <= |s| && IsStack(s, n, stack)
    ensures forall k | 0 <= k < |stack| :: stack[k] < n
  {
    forall k | 0 <= k < |stack| ensures stack[k] < n { OpenIsBefore(s, stack[k], n); }
  }

  lemma VariableIsTop(s: string, stack: seq<nat>, i: nat, j: nat)
    requires j < |s| && IsStack(BraceSteps(s), j, stack)
    ensures IsVariable(s, i, j)
            <==> BraceSteps(s)[j] == -1 && stack != [] && i == stack[|stack| - 1] && i < j && ':' !in s[i + 1..j]
  {
    hide IsStack;
    hide BraceSteps;
    if BraceSteps(s)[j] == -1 { MatchIsTop(BraceSteps(s), stack, i, j); }
  }

  /** The scanner's stack is the stack of open braces, and what it still finds is what ends from here on. */
  lemma {:induction false} RemainingByPositions(s: string, stack: seq<nat>, j: nat, esc: bool)
    requires j <= |s| && IsStack(BraceSteps(s), j, stack)
    requires esc <==> j > 0 && s[j - 1] == '\\'
    ensures (forall k | 0 <= k < |stack| :: stack[k] < j)
         && Remaining(s, Behind(stack), j, esc) == VariablesFrom(s, j)
    decreases |s| - j
  {
    hide IsStack;
    hide IsVariable;
    var steps := BraceSteps(s);
    StackIsBelow(steps, j, stack);
    if j < |s| {
      var next, c, open := Stepped(steps, j, stack), s[j], Slices(s, Behind(stack), j);
      StepKeepsStack(steps, j, stack);
      StackIsBelow(steps, j + 1, next);
      RemainingByPositions(s, next, j + 1, c == '\\');
      assert s[j..] == [c] + s[j + 1..];
      VariablesStep(c, s[j + 1..], esc, open);
      StepByPositions(s, stack, j, esc);
    }
  }

  lemma StepAt(s: string, j: nat, esc: bool)
    requires j < |s| && (esc <==> j > 0 && s[j - 1] == '\\')
    ensures BraceSteps(s)[j] == if esc then 0 else if s[j] == '{' then 1 else if s[j] == '}' then -1 else 0
  {
  }

  lemma StepByPositions(s: string, stack: seq<nat>, j: nat, esc: bool)
    requires j < |s| && IsStack(BraceSteps(s), j, stack) && forall k | 0 <= k < |stack| :: stack[k] < j
    requires forall k | 0 <= k < |Stepped(BraceSteps(s), j, stack)| :: Stepped(BraceSteps(s), j, stack)[k] <= j
    requires esc <==> j > 0 && s[j - 1] == '\\'
    ensures var open := Slices(s, Behind(stack), j);
      && StepOpen(s[j], esc, open) == Slices(s, Behind(Stepped(BraceSteps(s), j, stack)), j + 1)
      && VariablesFrom(s, j) == StepReport(s[j], esc, open) + VariablesFrom(s, j + 1)
  {
    hide IsStack;
    hide IsVariable;
    hide VariablesFrom;
    hide BraceSteps;
    StepAt(s, j, esc);
    var next, c, open := Stepped(BraceSteps(s), j, stack), s[j], Slices(s, Behind(stack), j);
    SlicesExtend(s, Behind(stack), j, 1);
    assert s[j..j + 1] == [c];
    FoundHere(s, stack, j);
    if c == '{' && !esc {
      assert Behind(next) == Behind(stack) + [j + 1];
      assert s[j + 1..j + 1] == "";
    } else if c == '}' && !esc && stack != [] {
      var below := Behind(stack)[..|stack| - 1];
      assert Behind(next) == below;
      SlicesExtend(s, below, j, 1);
      assert Slices(s, below, j) == open[..|stack| - 1];
    } else {
      assert next == stack;
    }
  }

  lemma FoundHere(s: string, stack: seq<nat>, j: nat)
    requires j < |s| && IsStack(BraceSteps(s), j, stack) && forall k | 0 <= k < |stack| :: stack[k] < j
    ensures VariablesFrom(s, j)
         == (if BraceSteps(s)[j] == -1 && stack != [] then Report(s[stack[|stack| - 1] + 1..j]) else [])
            + VariablesFrom(s, j + 1)
  {
    hide IsStack;
    hide IsVariable;
    hide BraceSteps;
    forall i: nat
      ensures IsVariable(s, i, j)
              <==> BraceSteps(s)[j] == -1 && stack != [] && i == stack[|stack| - 1] && i < j && ':' !in s[i + 1..j]
    {
      VariableIsTop(s, stack, i, j);
    }
    if BraceSteps(s)[j] == -1 && stack != [] {
      assert IsVariable(s, stack[|stack| - 1], j) <==> ':' !in s[stack[|stack| - 1] + 1..j];
    }
  }

  /** The prompt variables of a text are exactly the texts between matching unescaped braces that hold no colon, in
      the order of their closing braces. */
  lemma VariablesAreMatches(s: string)
    ensures Variables(s, false, []) == VariablesFrom(s, 0)
  {
    StackIsOpen(BraceSteps(s), 0);
    RemainingByPositions(s, [], 0, false);
    assert s[0..] == s && Slices(s, Behind([]), 0) == [];
  }

  lemma TextHasNoVariables(c: string)
    requires BraceFree(c)
    ensures Variables(c, false, []) == []
  {
    if c != "" {
      PassText(c, "", false, []);
      assert c + "" == c && Extend([], c) == [];
    }
  }

  lemma NameIsReported(name: string, c: string)
    requires BraceFree(name) && (name == "" || name[|name| - 1] != '\\')
    ensures Variables("{" + name + "}" + c, false, []) == Report(name) + Variables(c, false, [])
  {
    hide Variables;
    PlainGroup(name, c, false, []);
    assert Extend([], "{") == [] && "" + name == name && Extend([""], name) == [name];
    assert [name][..0] == [] && Extend([], "}") == [];
  }

  /** One name between braces in text without braces is the one variable. */
  lemma OneVariable(a: string, name: string, c: string)
    requires BraceFree(a) && BraceFree(name) && BraceFree(c)
    requires a == "" || a[|a| - 1] != '\\'
    requires name == "" || name[|name| - 1] != '\\'
    ensures Variables(a + ("{" + name + "}" + c), false, []) == if ':' in name then [] else [name]
  {
    hide Variables;
    var group := "{" + name + "}" + c;
    if a == "" {
      assert a + group == group;
    } else {
      PassText(a, group, false, []);
      assert Extend([], a) == [];
    }
    NameIsReported(name, c);
    TextHasNoVariables(c);
  }

  // ---- transformBracesWithColon ----

  /** Length of the longest brace-free prefix. */
  function Span(s: string): (n: nat)
    ensures n <= |s| && BraceFree(s[..n])
    ensures n < |s| ==> IsBrace(s[n])
  {
    if s == "" || IsBrace(s[0]) then 0
    else
      var n := Span(s[1..]);
      assert s[..n + 1] == [s[0]] + s[1..][..n];
      n + 1
  }

  /** A single-brace group starts `s`: an opening brace, brace-free text, and one closing brace
      that no second closing brace follows. */
  predicate StartsWithGroup(s: string) {
    && |s| > 0 && s[0] == '{'
    && var j := Span(s[1..]) + 1;
    j < |s| && s[j] == '}' && (j + 1 < |s| ==> s[j + 1] != '}')
  }

  /** The rewritten text; `afterOpen` says that the character before `s` is an opening brace. */
  function Rewrite(afterOpen: bool, s: string): (r: string)
    ensures r == "" <==> s == ""
    ensures s != "" ==> r[0] == s[0]
    decreases |s|
  {
    if s == "" then ""
    else if !afterOpen && StartsWithGroup(s) then
      var j := Span(s[1..]) + 1;
      var content := s[1..j];
      (if ':' in content then "{{" + content + "}}" else s[..j + 1]) + Rewrite(false, s[j + 1..])
    else [s[0]] + Rewrite(s[0] == '{', s[1..])
  }

  function TransformBracesWithColon(input: string): string { Rewrite(false, input) }

  // ---- what the rewriter does, by positions ----

  predicate Clear(s: string, a: nat, b: nat) { a <= b <= |s| && forall m | a <= m < b :: !IsBrace(s[m]) }

  /** Single braces around text that holds a colon and no brace. */
  predicate IsGroup(s: string, i: nat, j: nat) {
    && i < j < |s| && s[i] == '{' && s[j] == '}'
    && Clear(s, i + 1, j) && ':' in s[i + 1..j]
    && (i > 0 ==> s[i - 1] != '{') && (j + 1 < |s| ==> s[j + 1] != '}')
  }

  /** The brace at `k` belongs to such a group. */
  ghost predicate IsDoubled(s: string, k: nat) {
    (exists j: nat :: IsGroup(s, k, j)) || (exists i: nat :: IsGroup(s, i, k))
  }

  /** The text from `k` on, with the braces of such groups doubled and everything else as it is. */
  ghost function Doubled(s: string, k: nat): string
    requires k <= |s|
    decreases |s| - k
  {
    if k == |s| then ""
    else (if IsDoubled(s, k) then [s[k], s[k]] else [s[k]]) + Doubled(s, k + 1)
  }

  lemma DoubledAt(s: string, k: nat)
    requires k < |s|
    ensures Doubled(s, k) == (if IsDoubled(s, k) then [s[k], s[k]] else [s[k]]) + Doubled(s, k + 1)
  {
  }

  lemma {:induction false} DoubledText(s: string, k: nat, e: nat)
    requires Clear(s, k, e)
    ensures Doubled(s, k) == s[k..e] + Doubled(s, e)
    decreases e - k
  {
    hide Doubled;
    if k == e {
      assert s[k..e] + Doubled(s, e) == Doubled(s, e);
    } else {
      DoubledText(s, k + 1, e);
      DoubledAt(s, k);
      assert s[k..e] == [s[k]] + s[k + 1..e];
    }
  }

  lemma ClearIsFree(s: string, a: nat, b: nat)
    requires a <= b <= |s|
    ensures Clear(s, a, b) <==> BraceFree(s[a..b])
  {
    assert forall m | a <= m < b :: s[m] == s[a..b][m - a];
  }

  lemma SpanOfClear(s: string, k: nat, j: nat)
    requires k < j < |s| && Clear(s, k + 1, j) && IsBrace(s[j])
    ensures Span(s[k + 1..]) == j - k - 1
  {
    ClearIsFree(s, k + 1, j);
    assert s[k + 1..] == s[k + 1..j] + s[j..];
    SpanOf(s[k + 1..j], s[j..]);
  }

  lemma ClearSpan(s: string, k: nat)
    requires k < |s|
    ensures Clear(s, k + 1, k + 1 + Span(s[k + 1..]))
  {
    var n := Span(s[k + 1..]);
    assert s[k + 1..][..n] == s[k + 1..k + 1 + n];
    ClearIsFree(s, k + 1, k + 1 + n);
  }

  /** The end of the brace-free text behind `k`. */
  function EndOf(s: string, k: nat): (e: nat)
    requires k < |s|
    ensures k < e <= |s|
  {
    k + Span(s[k + 1..]) + 1
  }

  /** A single-brace group at `k` ends where the brace-free text behind it does. */
  lemma GroupAt(s: string, k: nat)
    requires k < |s|
    ensures var e := EndOf(s, k);
      StartsWithGroup(s[k..])
      <==> e < |s| && s[k] == '{' && s[e] == '}' && Clear(s, k + 1, e) && (e + 1 < |s| ==> s[e + 1] != '}')
    ensures forall j: nat | IsGroup(s, k, j) :: StartsWithGroup(s[k..]) && j == EndOf(s, k)
  {
    var t := s[k..];
    assert t[1..] == s[k + 1..];
    ClearSpan(s, k);
    forall j: nat | IsGroup(s, k, j) ensures j == EndOf(s, k) { SpanOfClear(s, k, j); }
  }

  /** No group reaches over `k`. */
  ghost predicate Between(s: string, k: nat) { forall i: nat, j: nat | IsGroup(s, i, j) :: k <= i || j < k }

  lemma BehindGroup(s: string, k: nat, e: nat)
    requires k < e < |s| && s[k] == '{' && s[e] == '}' && Clear(s, k + 1, e) && Between(s, k)
    ensures Between(s, e + 1)
  {
  }

  lemma GroupIsDoubled(s: string, k: nat, e: nat)
    requires k < e < |s| && s[k] == '{' && s[e] == '}' && Clear(s, k + 1, e)
    requires (k > 0 ==> s[k - 1] != '{') && (e + 1 < |s| ==> s[e + 1] != '}')
    ensures Doubled(s, k)
         == (if ':' in s[k + 1..e] then "{{" + s[k + 1..e] + "}}" else "{" + s[k + 1..e] + "}") + Doubled(s, e + 1)
  {
    hide Doubled;
    var c := s[k + 1..e];
    DoubledText(s, k + 1, e);
    DoubledAt(s, k);
    DoubledAt(s, e);
    assert IsGroup(s, k, e) <==> ':' in c;
    if ':' in c {
      assert Doubled(s, k) == "{{" + (c + ("}}" + Doubled(s, e + 1)));
    } else {
      assert Doubled(s, k) == "{" + (c + ("}" + Doubled(s, e + 1)));
    }
  }

  lemma RewriteGroup(t: string, n: nat)
    requires StartsWithGroup(t) && n == Span(t[1..]) + 1
    ensures Rewrite(false, t)
         == (if ':' in t[1..n] then "{{" + t[1..n] + "}}" else "{" + t[1..n] + "}") + Rewrite(false, t[n + 1..])
  {
    assert t[..n + 1] == "{" + t[1..n] + "}";
  }

  lemma NotDoubled(s: string, k: nat)
    requires k < |s| && Between(s, k) && ((k > 0 && s[k - 1] == '{') || !StartsWithGroup(s[k..]))
    ensures !IsDoubled(s, k) && Between(s, k + 1)
  {
    GroupAt(s, k);
  }

  lemma {:induction false} RewriteFrom(s: string, k: nat)
    requires k <= |s| && Between(s, k)
    ensures Rewrite(k > 0 && s[k - 1] == '{', s[k..]) == Doubled(s, k)
    decreases |s| - k
  {
    hide Between;
    hide IsGroup;
    hide StartsWithGroup;
    hide Clear;
    if k < |s| {
      var t := s[k..];
      GroupAt(s, k);
      if !(k > 0 && s[k - 1] == '{') && StartsWithGroup(t) {
        hide Rewrite;
        hide Doubled;
        var e := EndOf(s, k);
        BehindGroup(s, k, e);
        RewriteFrom(s, e + 1);
        GroupIsDoubled(s, k, e);
        assert t[1..] == s[k + 1..];
        RewriteGroup(t, e - k);
        assert t[e - k + 1..] == s[e + 1..] && t[1..e - k] == s[k + 1..e];
      } else {
        hide Doubled;
        assert t[1..] == s[k + 1..];
        NotDoubled(s, k);
        DoubledAt(s, k);
        RewriteFrom(s, k + 1);
      }
    }
  }

  /** The rewriter doubles the braces of every single-brace group that holds a colon, and changes nothing else. */
  lemma TransformDoublesGroups(s: string)
    ensures TransformBracesWithColon(s) == Doubled(s, 0)
  {
    RewriteFrom(s, 0);
    assert s[0..] == s;
  }

  // ---- the rewriter does not disturb the scanner ----

  /** Two stacks that report the same: entry by entry equal, or both holding a colon. */
  ghost predicate SameReports(a: seq<string>, b: seq<string>) {
    |a| == |b| && forall i | 0 <= i < |a| :: a[i] == b[i] || (':' in a[i] && ':' in b[i])
  }

  lemma ExtendByNothing(open: seq<string>)
    ensures Extend(open, "") == open
  {
    forall i | 0 <= i < |open| ensures open[i] + "" == open[i] {}
  }

  lemma SameReportsExtend(a: seq<string>, b: seq<string>, t: string)
    requires SameReports(a, b)
    ensures SameReports(Extend(a, t), Extend(b, t))
  {
  }

  /** Every open brace has a colon behind it, so none of them will ever be reported. */
  ghost predicate AllColons(open: seq<string>) {
    forall i | 0 <= i < |open| :: ':' in open[i]
  }

  lemma ColonForgets(open: seq<string>, t: string)
    requires ':' in t
    ensures AllColons(Extend(open, t))
  {
  }

  lemma ClosingAllColons(esc: bool, open: seq<string>)
    requires AllColons(open)
    ensures AllColons(StepOpen('}', esc, open)) && StepReport('}', esc, open) == []
    ensures |StepOpen('}', esc, open)| == if esc || open == [] then |open| else |open| - 1
  {
  }

  lemma ExtendExtend(open: seq<string>, t: string, u: string)
    ensures Extend(Extend(open, t), u) == Extend(open, t + u)
  {
    forall i | 0 <= i < |open| ensures open[i] + t + u == open[i] + (t + u) {}
  }

  /** Brace-free text only extends what is open. */
  lemma {:induction false} PassText(c: string, rest: string, esc: bool, open: seq<string>)
    requires BraceFree(c) && c != ""
    ensures Variables(c + rest, esc, open) == Variables(rest, c[|c| - 1] == '\\', Extend(open, c))
    decreases |c|
  {
    assert (c + rest)[1..] == c[1..] + rest && (c + rest)[..1] == c[..1];
    if |c| == 1 {
      assert c[1..] + rest == rest && c[..1] == c;
    } else {
      PassText(c[1..], rest, c[0] == '\\', Extend(open, c[..1]));
      ExtendExtend(open, c[..1], c[1..]);
      assert c[..1] + c[1..] == c;
    }
  }

  /** One character pushed onto, popped off or added to the open braces: the scanner's single step. */
  function StepOpen(c: char, esc: bool, open: seq<string>): seq<string> {
    if c == '{' && !esc then Extend(open, "{") + [""]
    else if c == '}' && !esc && open != [] then Extend(open[..|open| - 1], "}")
    else Extend(open, [c])
  }

  function StepReport(c: char, esc: bool, open: seq<string>): seq<string> {
    if c == '}' && !esc && open != [] then Report(open[|open| - 1]) else []
  }

  lemma VariablesStep(c: char, rest: string, esc: bool, open: seq<string>)
    ensures Variables([c] + rest, esc, open)
            == StepReport(c, esc, open) + Variables(rest, c == '\\', StepOpen(c, esc, open))
  {
    assert ([c] + rest)[1..] == rest && ([c] + rest)[..1] == [c];
  }

  lemma SameReportsStep(c: char, esc: bool, a: seq<string>, b: seq<string>)
    requires SameReports(a, b)
    ensures SameReports(StepOpen(c, esc, a), StepOpen(c, esc, b))
    ensures StepReport(c, esc, a) == StepReport(c, esc, b)
  {
  }

  /** A brace-free text with a colon between double braces: nothing is reported, and every brace still
      open afterwards has a colon behind it. */
  lemma DoubledGroup(c: string, rest: string, esc: bool, open: seq<string>) returns (after: seq<string>)
    requires BraceFree(c) && ':' in c
    ensures Variables("{{" + c + "}}" + rest, esc, open) == Variables(rest, false, after)
    ensures AllColons(after) && |after| == GroupDepth(c, esc, |open|)
  {
    var o1 := StepOpen('{', esc, open);
    var o3 := Extend(StepOpen('{', false, o1), c);
    var esc' := c[|c| - 1] == '\\';
    var o4 := StepOpen('}', esc', o3);
    var inner := "{" + c + "}" + (['}'] + rest);
    assert "{{" + c + "}}" + rest == ['{'] + inner;
    VariablesStep('{', inner, esc, open);
    PlainGroup(c, ['}'] + rest, false, o1);
    ColonForgets(StepOpen('{', false, o1), c);
    ClosingAllColons(esc', o3);
    VariablesStep('}', rest, false, o4);
    ClosingAllColons(false, o4);
    after := StepOpen('}', false, o4);
  }

  /** The same between single braces. */
  lemma SingleGroup(c: string, rest: string, esc: bool, open: seq<string>) returns (after: seq<string>)
    requires BraceFree(c) && ':' in c
    ensures Variables("{" + c + "}" + rest, esc, open) == Variables(rest, false, after)
    ensures AllColons(after) && |after| == GroupDepth(c, esc, |open|)
  {
    var o2 := Extend(StepOpen('{', esc, open), c);
    var esc' := c[|c| - 1] == '\\';
    PlainGroup(c, rest, esc, open);
    ColonForgets(StepOpen('{', esc, open), c);
    ClosingAllColons(esc', o2);
    after := StepOpen('}', esc', o2);
  }

  /** How many braces are open after a group: a backslash may have taken either brace out of play. */
  function GroupDepth(c: string, esc: bool, depth: nat): nat
    requires c != ""
  {
    var inside := if esc then depth else depth + 1;
    if c[|c| - 1] == '\\' || inside == 0 then inside else inside - 1
  }

  lemma {:induction false} RewriteKeepsVariables(s: string, afterOpen: bool, esc: bool, a: seq<string>, b: seq<string>)
    requires SameReports(a, b)
    ensures Variables(Rewrite(afterOpen, s), esc, a) == Variables(s, esc, b)
    decreases |s|
  {
    if s == "" {
    } else if !afterOpen && StartsWithGroup(s) {
      var j := Span(s[1..]) + 1;
      var c, rest := s[1..j], s[j + 1..];
      var rest' := Rewrite(false, rest);
      assert s == "{" + c + "}" + rest && s[1..][..j - 1] == c;
      forall x, y | SameReports(x, y) ensures Variables(rest', false, x) == Variables(rest, false, y) {
        RewriteKeepsVariables(rest, false, false, x, y);
      }
      if ':' in c {
        var x := DoubledGroup(c, rest', esc, a);
        var y := SingleGroup(c, rest, esc, b);
        assert SameReports(x, y);
      } else {
        PlainGroupKeepsReports(c, rest, rest', esc, a, b);
        assert s[..j + 1] == "{" + c + "}";
      }
    } else {
      var rest := s[1..];
      var rest' := Rewrite(s[0] == '{', rest);
      assert s == [s[0]] + rest;
      VariablesStep(s[0], rest, esc, b);
      VariablesStep(s[0], rest', esc, a);
      SameReportsStep(s[0], esc, a, b);
      RewriteKeepsVariables(rest, s[0] == '{', s[0] == '\\', StepOpen(s[0], esc, a), StepOpen(s[0], esc, b));
    }
  }

  lemma PlainGroupKeepsReports(c: string, rest: string, rest': string, esc: bool, a: seq<string>, b: seq<string>)
    requires BraceFree(c) && SameReports(a, b)
    requires forall x, y | SameReports(x, y) :: Variables(rest', false, x) == Variables(rest, false, y)
    ensures Variables("{" + c + "}" + rest', esc, a) == Variables("{" + c + "}" + rest, esc, b)
  {
    var esc' := c != "" && c[|c| - 1] == '\\';
    PlainGroup(c, rest, esc, b);
    PlainGroup(c, rest', esc, a);
    SameReportsStep('{', esc, a, b);
    SameReportsExtend(StepOpen('{', esc, a), StepOpen('{', esc, b), c);
    SameReportsStep('}', esc', Extend(StepOpen('{', esc, a), c), Extend(StepOpen('{', esc, b), c));
  }

  lemma PlainGroup(c: string, rest: string, esc: bool, open: seq<string>)
    requires BraceFree(c)
    ensures var esc' := c != "" && c[|c| - 1] == '\\';
            var inner := Extend(StepOpen('{', esc, open), c);
            Variables("{" + c + "}" + rest, esc, open)
            == StepReport('}', esc', inner) + Variables(rest, false, StepOpen('}', esc', inner))
  {
    var esc' := c != "" && c[|c| - 1] == '\\';
    var o1 := StepOpen('{', esc, open);
    assert "{" + c + "}" + rest == ['{'] + (c + (['}'] + rest));
    VariablesStep('{', c + (['}'] + rest), esc, open);
    if c == "" {
      assert c + (['}'] + rest) == ['}'] + rest;
      ExtendByNothing(o1);
    } else {
      PassText(c, ['}'] + rest, false, o1);
    }
    VariablesStep('}', rest, esc', Extend(o1, c));
  }

  /** Doubling the single braces around a colon never changes the prompt variables, whatever the text:
      nested, unbalanced and backslash-escaped braces included. */
  lemma TransformKeepsInputVariables(s: string)
    ensures Variables(TransformBracesWithColon(s), false, []) == Variables(s, false, [])
  {
    RewriteKeepsVariables(s, false, false, [], []);
  }

  // ---- rewriting twice is rewriting once ----

  lemma {:induction false} RewritePassesText(afterOpen: bool, c: string, rest: string)
    requires BraceFree(c)
    ensures Rewrite(afterOpen, c + rest) == c + Rewrite(c == "" && afterOpen, rest)
    decreases |c|
  {
    if c == "" {
      assert c + rest == rest;
    } else {
      assert (c + rest)[1..] == c[1..] + rest;
      RewritePassesText(false, c[1..], rest);
    }
  }

  lemma {:induction false} SpanOf(c: string, rest: string)
    requires BraceFree(c)
    ensures rest != "" && IsBrace(rest[0]) ==> Span(c + rest) == |c|
    ensures rest == "" ==> Span(c + rest) == |c|
    decreases |c|
  {
    if c == "" {
      assert c + rest == rest;
    } else {
      assert (c + rest)[1..] == c[1..] + rest;
      SpanOf(c[1..], rest);
    }
  }

  lemma {:induction false} RewriteTwice(afterOpen: bool, s: string)
    ensures Rewrite(afterOpen, Rewrite(afterOpen, s)) == Rewrite(afterOpen, s)
    decreases |s|
  {
    var r := Rewrite(afterOpen, s);
    if s == "" {
    } else if !afterOpen && StartsWithGroup(s) {
      var j := Span(s[1..]) + 1;
      var c, rest := s[1..j], s[j + 1..];
      assert s[1..][..j - 1] == c;
      var rest' := Rewrite(false, rest);
      RewriteTwice(false, rest);
      if ':' in c {
        DoubledStays(c, rest');
      } else {
        assert s[..j + 1] == "{" + c + "}";
        PlainGroupStays(c, rest');
      }
    } else {
      var rest' := Rewrite(s[0] == '{', s[1..]);
      assert r == [s[0]] + rest' && r[1..] == rest';
      RewriteTwice(s[0] == '{', s[1..]);
      if !afterOpen && StartsWithGroup(r) { GroupsAreNotCreated(s); }
    }
  }

  /** Where the parts of a group are. */
  lemma GroupParts(c: string, rest: string) returns (r: string)
    requires BraceFree(c)
    ensures r == "{" + c + "}" + rest && r[1..] == c + ("}" + rest)
    ensures Span(r[1..]) == |c| && r[1..|c| + 1] == c && r[|c| + 1] == '}'
    ensures r[|c| + 2..] == rest && r[..|c| + 2] + rest == r
  {
    r := "{" + (c + ("}" + rest));
    assert r[1..] == c + ("}" + rest);
    SpanOf(c, "}" + rest);
  }

  lemma PlainGroupStays(c: string, rest': string)
    requires BraceFree(c) && ':' !in c && Rewrite(false, rest') == rest'
    requires rest' != "" ==> rest'[0] != '}'
    ensures Rewrite(false, "{" + c + "}" + rest') == "{" + c + "}" + rest'
  {
    var r := GroupParts(c, rest');
    assert rest' != "" ==> r[|c| + 2] == rest'[0];
    assert StartsWithGroup(r);
  }

  /** The doubled form is left alone. */
  lemma DoubledStays(c: string, rest': string)
    requires BraceFree(c) && ':' in c && Rewrite(false, rest') == rest'
    ensures Rewrite(false, "{{" + c + "}}" + rest') == "{{" + c + "}}" + rest'
  {
    var t3 := "}" + rest';
    var t2 := "}" + t3;
    var t1 := "{" + (c + t2);
    var t0 := "{" + t1;
    assert "{{" + c + "}}" + rest' == t0;
    assert t0[1..] == t1 && t1[1..] == c + t2 && t2[1..] == t3 && t3[1..] == rest';
    assert !StartsWithGroup(t0);
    RewritePassesText(true, c, t2);
  }

  /** A text that starts with no group does not start with one after its tail is rewritten. */
  lemma GroupsAreNotCreated(s: string)
    requires s != "" && s[0] == '{' && !StartsWithGroup(s)
    ensures !StartsWithGroup([s[0]] + Rewrite(true, s[1..]))
  {
    var tail := s[1..];
    var n := Span(tail);
    var c, rest := tail[..n], tail[n..];
    assert tail == c + rest;
    RewritePassesText(true, c, rest);
    var rest' := Rewrite(c == "", rest);
    var r := [s[0]] + Rewrite(true, tail);
    assert r[1..] == c + rest';
    SpanOf(c, rest');
    if rest != "" && rest[0] == '}' {
      assert |rest| > 1 && rest[1] == '}' by { assert s[n + 1] == rest[0]; assert s[n + 2] == rest[1]; }
      assert rest' == ['}'] + Rewrite(false, rest[1..]);
      assert r[n + 1] == '}' && r[n + 2] == '}';
    }
  }

  lemma TransformIsIdempotent(s: string)
    ensures TransformBracesWithColon(TransformBracesWithColon(s)) == TransformBracesWithColon(s)
  {
    RewriteTwice(false, s);
  }
}
