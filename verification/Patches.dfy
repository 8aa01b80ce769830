/** The line machine that strips protected diff bodies from archived patches. */
module Patches {
  import opened Wrappers

  // ---- lines ----

  /** The line boundaries of `splitlines`. */
  predicate IsBreak(c: char) {
    '\n' <= c <= '\r' || '\U{001C}' <= c <= '\U{001E}' || c == '\U{0085}' || c == '\U{2028}' || c == '\U{2029}'
  }

  /** What `\S` does not match. */
  predicate IsSpace(c: char) {
    || '\t' <= c <= '\r' || '\U{001C}' <= c <= ' ' || c == '\U{0085}' || c == '\U{00A0}' || c == '\U{1680}'
    || '\U{2000}' <= c <= '\U{200A}' || c == '\U{2028}' || c == '\U{2029}' || c == '\U{202F}' || c == '\U{205F}'
    || c == '\U{3000}'
  }

  /** Length of the first line, with its boundary; a carriage return and a newline are one boundary. */
  function LineLength(s: string): (n: nat)
    ensures n <= |s| && (s != "" ==> n > 0)
  {
    if s == "" then 0
    else if s[0] == '\r' && |s| > 1 && s[1] == '\n' then 2
    else if IsBreak(s[0]) then 1
    else LineLength(s[1..]) + 1
  }

  function SplitLines(s: string): seq<string>
    decreases |s|
  {
    if s == "" then [] else [s[..LineLength(s)]] + SplitLines(s[LineLength(s)..])
  }

  function Concat(lines: seq<string>): string {
    if lines == [] then "" else lines[0] + Concat(lines[1..])
  }

  /** `rstrip('\n')`. */
  function StripNewlines(s: string): string
    decreases |s|
  {
    if s != "" && s[|s| - 1] == '\n' then StripNewlines(s[..|s| - 1]) else s
  }

  // ---- headers and ends ----

  const PROTECTED: seq<string> := ["packages/server/src/enterprise/", "packages/server/src/IdentityManager.ts"]

  // The marker's text, in the pieces that its proofs look at.
  const MARKER_FIRST: seq<string> :=
    ["hunk removed by ", "upstream-archive/", "strip-protected-", "hunks.py -- ", "this file was "]
  const MARKER_SECOND: seq<string> :=
    ["under the ", "FlowiseAI ", "Commercial License ", "and its content ", "cannot be "]
  const MARKER_THIRD: seq<string> :=
    ["redistributed. ", "The pull request ", "still changed it; ", "only the diff body ", "is gone."]

  const MARKER_TEXT := Concat(MARKER_FIRST) + Concat(MARKER_SECOND) + Concat(MARKER_THIRD)

  const MARKER := "[" + MARKER_TEXT + "]"

  function MarkerLine(): string { MARKER + "\n" }

  predicate IsProtected(path: string) { exists i | 0 <= i < |PROTECTED| :: PROTECTED[i] <= path }

  /** Length of the longest prefix without white space. */
  function SolidLength(s: string): (n: nat)
    ensures n <= |s| && (forall i | 0 <= i < n :: !IsSpace(s[i])) && (n < |s| ==> IsSpace(s[n]))
  {
    if s == "" || IsSpace(s[0]) then 0 else SolidLength(s[1..]) + 1
  }

  /** The two paths of a diff header. */
  function MatchHeader(s: string): Option<(string, string)> {
    if !("diff --git a/" <= s) then None
    else
      var rest := s[13..];
      var n := SolidLength(rest);
      var second := rest[n..];
      if n == 0 || !(" b/" <= second) then None
      else
        var path := second[3..];
        if path == "" || SolidLength(path) < |path| then None else Some((rest[..n], path))
  }

  predicate IsHex(c: char) { '0' <= c <= '9' || 'a' <= c <= 'f' }

  const FROM_DATE := " Mon Sep 17 00:00:00 2001"

  /** A signature line, or the first line of the next mailbox. */
  predicate MatchEnd(s: string) {
    || s == "-- "
    || (&& "From " <= s && 5 + 7 + |FROM_DATE| <= |s| <= 5 + 40 + |FROM_DATE|
        && s[|s| - |FROM_DATE|..] == FROM_DATE
        && forall i | 5 <= i < |s| - |FROM_DATE| :: IsHex(s[i]))
  }

  function Header(line: string): Option<(string, string)> { MatchHeader(StripNewlines(line)) }

  predicate IsHeader(line: string) { Header(line).Some? }

  predicate IsProtectedHeader(line: string) {
    IsHeader(line) && (IsProtected(Header(line).value.0) || IsProtected(Header(line).value.1))
  }

  predicate IsEnd(line: string) { !IsHeader(line) && MatchEnd(StripNewlines(line)) }

  // ---- which lines are headers and ends ----

  predicate Solid(s: string) { s != "" && forall i | 0 <= i < |s| :: !IsSpace(s[i]) }

  function HeaderText(a: string, b: string): string { "diff --git a/" + (a + (" b/" + b)) }

  lemma {:induction false} SolidStart(a: string, rest: string)
    requires (forall i | 0 <= i < |a| :: !IsSpace(a[i])) && (rest != "" ==> IsSpace(rest[0]))
    ensures SolidLength(a + rest) == |a|
    decreases |a|
  {
    if a == "" {
      assert a + rest == rest;
    } else {
      assert (a + rest)[1..] == a[1..] + rest;
      SolidStart(a[1..], rest);
    }
  }

  lemma HeaderIsRead(a: string, b: string)
    requires Solid(a) && Solid(b)
    ensures MatchHeader(HeaderText(a, b)) == Some((a, b))
  {
    hide IsSpace;
    var s := HeaderText(a, b);
    assert s[13..] == a + (" b/" + b);
    BlankIsSpace();
    SolidStart(a, " b/" + b);
    assert s[13..][|a|..] == " b/" + b && s[13..][..|a|] == a;
    assert (" b/" + b)[3..] == b;
    SolidStart(b, "");
    assert b + "" == b;
  }

  lemma BlankIsSpace()
    ensures IsSpace(' ')
  {
  }

  lemma ReadIsHeader(s: string)
    requires MatchHeader(s).Some?
    ensures var (a, b) := MatchHeader(s).value; Solid(a) && Solid(b) && s == HeaderText(a, b)
  {
    hide IsSpace;
    var (a, b) := MatchHeader(s).value;
    var rest := s[13..];
    var second := rest[|a|..];
    assert rest == a + second && second == " b/" + b;
    assert s == "diff --git a/" + rest;
  }

  /** A header is exactly the text of two paths without white space. */
  lemma HeaderIff(s: string, a: string, b: string)
    ensures MatchHeader(s) == Some((a, b)) <==> Solid(a) && Solid(b) && s == HeaderText(a, b)
  {
    hide MatchHeader;
    hide Solid;
    hide HeaderText;
    if MatchHeader(s).Some? { ReadIsHeader(s); }
    if Solid(a) && Solid(b) && s == HeaderText(a, b) { HeaderIsRead(a, b); }
  }

  /** A signature, or the line that git writes at the start of a mail: its hash has 7 to 40 digits. */
  lemma EndIff(s: string)
    ensures MatchEnd(s) <==>
      s == "-- " || exists sha: string | 7 <= |sha| <= 40 :: AllHex(sha) && s == "From " + (sha + FROM_DATE)
  {
    if MatchEnd(s) && s != "-- " {
      var sha := s[5..|s| - |FROM_DATE|];
      assert s == "From " + (sha + FROM_DATE);
      assert AllHex(sha);
    }
    if exists sha: string | 7 <= |sha| <= 40 :: AllHex(sha) && s == "From " + (sha + FROM_DATE) {
      var sha: string :| 7 <= |sha| <= 40 && AllHex(sha) && s == "From " + (sha + FROM_DATE);
      assert s[5..|s| - |FROM_DATE|] == sha;
      forall i | 5 <= i < |s| - |FROM_DATE| ensures IsHex(s[i]) { assert s[i] == sha[i - 5]; }
    }
  }

  predicate AllHex(s: string) { forall i | 0 <= i < |s| :: IsHex(s[i]) }

  /** A header is protected exactly when one of its paths is, a directory's by what it starts with. */
  lemma ProtectedIff(path: string)
    ensures IsProtected(path) <==>
      "packages/server/src/enterprise/" <= path || "packages/server/src/IdentityManager.ts" <= path
  {
    assert PROTECTED[0] == "packages/server/src/enterprise/";
    assert PROTECTED[1] == "packages/server/src/IdentityManager.ts";
  }

  // ---- the line machine ----

  /** Whether body lines are being dropped after `line`. */
  function Next(line: string, dropping: bool): bool {
    if IsHeader(line) then IsProtectedHeader(line) else dropping && !IsEnd(line)
  }

  /** What is written for one line. */
  function Emit(line: string, dropping: bool): seq<string> {
    if IsProtectedHeader(line) then [line, MarkerLine()]
    else if IsHeader(line) || !dropping || IsEnd(line) then [line]
    else []
  }

  function StripLines(lines: seq<string>, dropping: bool): seq<string>
    decreases |lines|
  {
    if lines == [] then [] else Emit(lines[0], dropping) + StripLines(lines[1..], Next(lines[0], dropping))
  }

  function Removed(lines: seq<string>): seq<string> {
    if lines == [] then []
    else (if IsProtectedHeader(lines[0]) then [Header(lines[0]).value.0] else []) + Removed(lines[1..])
  }

  function After(lines: seq<string>, dropping: bool): bool
    decreases |lines|
  {
    if lines == [] then dropping else After(lines[1..], Next(lines[0], dropping))
  }

  function StripText(text: string): string { Concat(StripLines(SplitLines(text), false)) }

  /** One pass of the loop body. */
  method StripLine(line: string, dropping: bool) returns (out: seq<string>, removed: seq<string>, next: bool)
    ensures out == Emit(line, dropping) && next == Next(line, dropping)
    ensures removed == if IsProtectedHeader(line) then [Header(line).value.0] else []
  {
    hide MatchHeader;
    hide MatchEnd;
    hide IsProtected;
    out, removed, next := [], [], dropping;
    var header := Header(line);
    if header.Some? {
      var (a, b) := header.value;
      next := IsProtected(a) || IsProtected(b);
      if next {
        removed := [a];
        out := [line, MarkerLine()];
      } else {
        out := [line];
      }
      return;
    }
    if dropping {
      if MatchEnd(StripNewlines(line)) {
        next := false;
        out := [line];
      }
      return;
    }
    out := [line];
  }

  method Strip(text: string) returns (stripped: string, removed: seq<string>)
    ensures stripped == StripText(text) && removed == Removed(SplitLines(text))
  {
    hide IsProtectedHeader;
    hide Emit;
    hide Next;
    var lines := SplitLines(text);
    var out: seq<string> := [];
    removed := [];
    var dropping := false;
    assert lines[0..] == lines;
    for i := 0 to |lines|
      invariant out + StripLines(lines[i..], dropping) == StripLines(lines, false)
      invariant removed + Removed(lines[i..]) == Removed(lines)
    {
      assert lines[i..][0] == lines[i] && lines[i..][1..] == lines[i + 1..];
      var emitted, paths, next := StripLine(lines[i], dropping);
      Regroup(out, emitted, StripLines(lines[i + 1..], next));
      Regroup(removed, paths, Removed(lines[i + 1..]));
      out := out + emitted;
      removed := removed + paths;
      dropping := next;
    }
    assert out + [] == out && removed + [] == removed;
    stripped := Concat(out);
  }

  lemma Regroup(a: seq<string>, b: seq<string>, c: seq<string>)
    ensures a + (b + c) == (a + b) + c
  {
  }

  // ---- which lines are kept ----

  lemma {:induction false} StripConcat(a: seq<string>, b: seq<string>, dropping: bool)
    ensures StripLines(a + b, dropping) == StripLines(a, dropping) + StripLines(b, After(a, dropping))
    ensures After(a + b, dropping) == After(b, After(a, dropping))
    decreases |a|
  {
    hide Emit;
    hide Next;
    if a == [] {
      assert a + b == b;
    } else {
      assert (a + b)[1..] == a[1..] + b;
      StripConcat(a[1..], b, Next(a[0], dropping));
    }
  }

  /** Line `i` is the body of a protected diff: a protected header comes before it, and from the line after
      that header up to line `i` itself there is neither a header nor an end. */
  ghost predicate InProtectedBody(lines: seq<string>, i: nat)
    requires i < |lines|
  {
    exists j | 0 <= j < i :: IsProtectedHeader(lines[j]) && forall k | j < k <= i ::
        !IsHeader(lines[k]) && !IsEnd(lines[k])
  }

  /** The machine is dropping after the first `n` lines exactly when a protected header is the last of the
      headers and ends among them. */
  lemma {:induction false} DroppingMeans(lines: seq<string>, n: nat)
    requires n <= |lines|
    ensures After(lines[..n], false) <==>
      exists j | 0 <= j < n :: IsProtectedHeader(lines[j]) && forall k | j < k < n ::
          !IsHeader(lines[k]) && !IsEnd(lines[k])
  {
    hide MatchHeader;
    hide MatchEnd;
    hide IsProtected;
    hide StripLines;
    if n > 0 {
      var line := lines[n - 1];
      DroppingMeans(lines, n - 1);
      assert lines[..n] == lines[..n - 1] + [line];
      StripConcat(lines[..n - 1], [line], false);
      assert [line][1..] == [];
      assert After(lines[..n], false) == Next(line, After(lines[..n - 1], false));
    }
  }

  /** The lines up to `n`, without the bodies of protected diffs and with a marker behind their headers. */
  ghost function KeptLines(lines: seq<string>, n: nat): seq<string>
    requires n <= |lines|
  {
    if n == 0 then []
    else
      KeptLines(lines, n - 1) +
      (if InProtectedBody(lines, n - 1) then []
       else if IsProtectedHeader(lines[n - 1]) then [lines[n - 1], MarkerLine()]
       else [lines[n - 1]])
  }

  /** Every line outside the bodies of protected diffs is kept, in order, and no line inside. */
  lemma {:induction false} StripKeepsTheRest(lines: seq<string>, n: nat)
    requires n <= |lines|
    ensures StripLines(lines[..n], false) == KeptLines(lines, n)
  {
    hide MatchHeader;
    hide MatchEnd;
    hide IsProtected;
    hide MarkerLine;
    hide InProtectedBody;
    if n > 0 {
      var line := lines[n - 1];
      StripKeepsTheRest(lines, n - 1);
      DroppingMeans(lines, n - 1);
      assert lines[..n] == lines[..n - 1] + [line];
      StripConcat(lines[..n - 1], [line], false);
      StripOne(line, After(lines[..n - 1], false));
      EmitIsKept(lines, n - 1);
    }
  }

  lemma EmitIsKept(lines: seq<string>, i: nat)
    requires i < |lines|
    requires After(lines[..i], false) <==>
      exists j | 0 <= j < i :: IsProtectedHeader(lines[j]) && forall k | j < k < i ::
          !IsHeader(lines[k]) && !IsEnd(lines[k])
    ensures Emit(lines[i], After(lines[..i], false))
         == (if InProtectedBody(lines, i) then []
             else if IsProtectedHeader(lines[i]) then [lines[i], MarkerLine()]
             else [lines[i]])
  {
    hide Header;
    hide MatchEnd;
    hide IsProtected;
    hide After;
    var dropping := After(lines[..i], false);
    var open := !IsHeader(lines[i]) && !IsEnd(lines[i]);
    assert InProtectedBody(lines, i) <==> dropping && open by {
      if dropping && open {
        var j :| 0 <= j < i && IsProtectedHeader(lines[j]) && forall k | j < k < i ::
            !IsHeader(lines[k]) && !IsEnd(lines[k]);
        assert forall k | j < k <= i :: !IsHeader(lines[k]) && !IsEnd(lines[k]);
      }
    }
  }

  // ---- stripping twice, by lines ----

  lemma MarkerIsPlain()
    ensures !IsHeader(MarkerLine()) && !IsEnd(MarkerLine())
  {
    NotHeaderNorEnd(MARKER);
  }

  /** A line that starts with a bracket and does not end in one more newline is neither header nor end. */
  lemma NotHeaderNorEnd(s: string)
    requires s != "" && s[0] == '[' && s[|s| - 1] != '\n'
    ensures !IsHeader(s + "\n") && !IsEnd(s + "\n")
  {
    var line := s + "\n";
    assert line[..|line| - 1] == s;
    assert StripNewlines(s) == s;
    assert StripNewlines(line) == s;
  }

  lemma StripOne(line: string, dropping: bool)
    ensures StripLines([line], dropping) == Emit(line, dropping) && After([line], dropping) == Next(line, dropping)
  {
    hide Emit;
    hide Next;
    assert [line][1..] == [];
    assert Emit(line, dropping) + [] == Emit(line, dropping);
  }

  lemma EmittedAgain(line: string, dropping: bool)
    ensures StripLines(Emit(line, dropping), dropping) == Emit(line, dropping)
    ensures After(Emit(line, dropping), dropping) == Next(line, dropping)
  {
    hide Header;
    hide MatchEnd;
    hide IsProtected;
    hide MarkerLine;
    hide StripLines;
    hide After;
    if IsProtectedHeader(line) {
      MarkerIsPlain();
      StripOne(line, dropping);
      StripOne(MarkerLine(), true);
      StripConcat([line], [MarkerLine()], dropping);
      assert [line] + [MarkerLine()] == [line, MarkerLine()];
      assert Emit(MarkerLine(), true) == [];
      assert [line, MarkerLine()] + [] == [line, MarkerLine()];
    } else if IsHeader(line) || !dropping || IsEnd(line) {
      StripOne(line, dropping);
    } else {
      StripNone(dropping);
    }
  }

  lemma StripNone(dropping: bool)
    ensures StripLines([], dropping) == [] && After([], dropping) == dropping
  {
  }

  /** Stripping again changes nothing, and ends in the same state. */
  lemma {:induction false} StripLinesTwice(lines: seq<string>, dropping: bool)
    ensures StripLines(StripLines(lines, dropping), dropping) == StripLines(lines, dropping)
    ensures After(StripLines(lines, dropping), dropping) == After(lines, dropping)
    decreases |lines|
  {
    hide Emit;
    hide Next;
    if lines != [] {
      var next := Next(lines[0], dropping);
      EmittedAgain(lines[0], dropping);
      StripLinesTwice(lines[1..], next);
      StripConcat(Emit(lines[0], dropping), StripLines(lines[1..], next), dropping);
    }
  }

  // ---- splitting and joining ----

  lemma {:induction false} ConcatAppend(a: seq<string>, b: seq<string>)
    ensures Concat(a + b) == Concat(a) + Concat(b)
    decreases |a|
  {
    if a == [] {
      assert a + b == b;
    } else {
      assert (a + b)[1..] == a[1..] + b;
      ConcatAppend(a[1..], b);
    }
  }

  /** One line, possibly without a boundary. */
  predicate IsLine(l: string) { l != "" && LineLength(l) == |l| }

  predicate Terminated(l: string) { l != "" && IsBreak(l[|l| - 1]) }

  /** The line `a` stays a line of its own in front of `b`. */
  predicate Separate(a: string, b: string) { Terminated(a) && b != "" && !(a[|a| - 1] == '\r' && b[0] == '\n') }

  predicate Lines(lines: seq<string>)
    decreases |lines|
  {
    lines == [] || (IsLine(lines[0]) && (|lines| > 1 ==> Separate(lines[0], lines[1])) && Lines(lines[1..]))
  }

  lemma {:induction false} LineBefore(l: string, rest: string)
    requires IsLine(l) && (rest != "" ==> Separate(l, rest))
    ensures LineLength(l + rest) == |l|
    decreases |l|
  {
    if rest == "" {
      assert l + rest == l;
    } else {
      assert (l + rest)[0] == l[0] && (l + rest)[1..] == l[1..] + rest;
      if |l| == 1 {
        assert l[1..] + rest == rest;
      } else if !(l[0] == '\r' && l[1] == '\n') && !IsBreak(l[0]) {
        LineBefore(l[1..], rest);
      }
    }
  }

  /** Splitting undoes joining lines that stay separate. */
  lemma {:induction false} SplitConcat(lines: seq<string>)
    requires Lines(lines)
    ensures SplitLines(Concat(lines)) == lines
    decreases |lines|
  {
    if lines != [] {
      var l, rest := lines[0], Concat(lines[1..]);
      if |lines| > 1 { assert rest[0] == lines[1][0]; }
      LineBefore(l, rest);
      assert (l + rest)[..|l|] == l && (l + rest)[|l|..] == rest;
      SplitConcat(lines[1..]);
      assert lines == [l] + lines[1..];
    }
  }

  lemma {:induction false} FirstLine(s: string)
    requires s != ""
    ensures var n := LineLength(s); IsLine(s[..n]) && (n < |s| ==> Separate(s[..n], s[n..]))
    decreases |s|
  {
    var n := LineLength(s);
    if s[0] == '\r' && |s| > 1 && s[1] == '\n' {
      assert s[..2][1] == '\n';
    } else if !IsBreak(s[0]) && |s| > 1 {
      FirstLine(s[1..]);
      assert s[..n][1..] == s[1..][..n - 1] && s[1..][n - 1..] == s[n..];
    }
  }

  lemma {:induction false} SplitIsLines(s: string)
    ensures Lines(SplitLines(s)) && Concat(SplitLines(s)) == s
    decreases |s|
  {
    if s != "" {
      var n := LineLength(s);
      FirstLine(s);
      SplitIsLines(s[n..]);
      if n < |s| {
        var m := LineLength(s[n..]);
        assert SplitLines(s)[1] == s[n..][..m] && s[n..][..m][0] == s[n];
      }
      assert SplitLines(s)[1..] == SplitLines(s[n..]);
    }
  }

  // ---- stripping twice, by text ----

  predicate NoBreak(s: string) { forall i | 0 <= i < |s| :: !IsBreak(s[i]) }

  lemma {:induction false} ConcatNoBreak(pieces: seq<string>)
    requires forall i | 0 <= i < |pieces| :: NoBreak(pieces[i])
    ensures NoBreak(Concat(pieces))
  {
    if pieces != [] { ConcatNoBreak(pieces[1..]); }
  }

  lemma FirstHasNoBreak()
    ensures NoBreak(Concat(MARKER_FIRST))
  {
    forall i | 0 <= i < |MARKER_FIRST| ensures NoBreak(MARKER_FIRST[i]) {}
    ConcatNoBreak(MARKER_FIRST);
  }

  lemma SecondHasNoBreak()
    ensures NoBreak(Concat(MARKER_SECOND))
  {
    forall i | 0 <= i < |MARKER_SECOND| ensures NoBreak(MARKER_SECOND[i]) {}
    ConcatNoBreak(MARKER_SECOND);
  }

  lemma ThirdHasNoBreak()
    ensures NoBreak(Concat(MARKER_THIRD))
  {
    forall i | 0 <= i < |MARKER_THIRD| ensures NoBreak(MARKER_THIRD[i]) {}
    ConcatNoBreak(MARKER_THIRD);
  }

  lemma MarkerHasNoBreak()
    ensures NoBreak(MARKER)
  {
    hide Concat;
    FirstHasNoBreak();
    SecondHasNoBreak();
    ThirdHasNoBreak();
  }

  /** Text without a boundary, closed by a newline, is one line. */
  lemma {:induction false} ClosedByNewline(s: string)
    requires NoBreak(s)
    ensures IsLine(s + "\n") && Terminated(s + "\n")
    decreases |s|
  {
    var l := s + "\n";
    if s != "" {
      assert l[1..] == s[1..] + "\n" && l[0] == s[0];
      ClosedByNewline(s[1..]);
    }
  }

  lemma {:induction false} OpenLineHasNoBreak(l: string)
    requires IsLine(l) && !Terminated(l)
    ensures NoBreak(l)
    decreases |l|
  {
    if |l| > 1 {
      assert l[1..][|l[1..]| - 1] == l[|l| - 1];
      OpenLineHasNoBreak(l[1..]);
    }
  }

  lemma {:induction false} JoinedLines(a: seq<string>, b: seq<string>)
    requires Lines(a) && Lines(b)
    requires a != [] && b != [] ==> Separate(a[|a| - 1], b[0])
    ensures Lines(a + b)
    decreases |a|
  {
    if a == [] {
      assert a + b == b;
    } else {
      assert (a + b)[1..] == a[1..] + b;
      if |a| > 1 { assert a[1..][|a[1..]| - 1] == a[|a| - 1]; }
      JoinedLines(a[1..], b);
    }
  }

  lemma {:induction false} StripNewlinesIsPrefix(s: string)
    ensures StripNewlines(s) <= s
    decreases |s|
  {
    if s != "" && s[|s| - 1] == '\n' { StripNewlinesIsPrefix(s[..|s| - 1]); }
  }

  /** Headers and ends do not start with a newline. */
  lemma HeaderOrEndStart(line: string)
    requires IsHeader(line) || IsEnd(line)
    ensures line != "" && line[0] != '\n'
    ensures IsHeader(line) ==> line[0] == 'd'
  {
    StripNewlinesIsPrefix(line);
  }

  lemma MarkerIsLine()
    ensures IsLine(MarkerLine()) && Terminated(MarkerLine()) && MarkerLine()[0] == '['
    ensures MarkerLine()[|MarkerLine()| - 1] == '\n'
  {
    MarkerHasNoBreak();
    ClosedByNewline(MARKER);
  }

  predicate EndsOpen(lines: seq<string>) { lines != [] && !Terminated(lines[|lines| - 1]) }

  /** The text ends in a protected header without a boundary. */
  predicate EndsInOpenHeader(lines: seq<string>) { EndsOpen(lines) && IsProtectedHeader(lines[|lines| - 1]) }

  /** What is written for one line is a sequence of lines. */
  lemma EmitIsLines(line: string, dropping: bool)
    requires IsLine(line) && !(!Terminated(line) && IsProtectedHeader(line))
    ensures var out := Emit(line, dropping);
      && Lines(out)
      && (out != [] ==> out[0] == line)
      && (IsProtectedHeader(line) ==> Terminated(out[|out| - 1]) && out[|out| - 1][|out[|out| - 1]| - 1] == '\n')
      && (!IsProtectedHeader(line) && out != [] ==> out == [line])
  {
    hide Header;
    hide MatchEnd;
    hide IsProtected;
    hide LineLength;
    hide MarkerLine;
    MarkerIsLine();
    OneLine(line);
    if IsProtectedHeader(line) { TwoLines(line, MarkerLine()); }
  }

  lemma OneLine(a: string)
    requires IsLine(a)
    ensures Lines([a])
  {
    assert [a][1..] == [] && Lines([]);
  }

  lemma TwoLines(a: string, b: string)
    requires IsLine(a) && IsLine(b) && Separate(a, b)
    ensures Lines([a, b])
  {
    OneLine(b);
    assert [a, b][1..] == [b];
  }

  /** The lines written are the lines of the text written, unless the text ends in an open protected header. */
  lemma {:induction false} StripLinesAreLines(lines: seq<string>, dropping: bool)
    requires Lines(lines) && !EndsInOpenHeader(lines)
    ensures var out := StripLines(lines, dropping);
      && Lines(out)
      && (EndsOpen(out) ==> EndsOpen(lines))
      && (out != [] ==> if dropping then out[0][0] != '\n' else out[0] == lines[0])
    decreases |lines|
  {
    hide IsHeader;
    hide IsEnd;
    hide IsProtectedHeader;
    hide LineLength;
    hide MarkerLine;
    if lines != [] {
      var l, rest := lines[0], lines[1..];
      if rest != [] { assert rest[|rest| - 1] == lines[|lines| - 1]; }
      var next := Next(l, dropping);
      var out := StripLines(rest, next);
      StripLinesAreLines(rest, next);
      EmitIsLines(l, dropping);
      ProtectedIsHeader(l);
      if IsHeader(l) || IsEnd(l) { HeaderOrEndStart(l); }
      JoinedLines(Emit(l, dropping), out);
    }
  }

  lemma ProtectedIsHeader(line: string)
    ensures IsProtectedHeader(line) ==> IsHeader(line)
  {
  }

  /** A header without a boundary swallows the marker written behind it, and the two are plain text. */
  lemma GluedIsPlain(l: string)
    requires IsLine(l) && !Terminated(l) && IsHeader(l)
    ensures var g := l + MarkerLine(); IsLine(g) && Terminated(g) && g[0] == 'd' && !IsHeader(g) && !IsEnd(g)
  {
    hide Concat;
    var g := l + MarkerLine();
    assert g == (l + MARKER) + "\n";
    OpenLineHasNoBreak(l);
    MarkerHasNoBreak();
    ClosedByNewline(l + MARKER);
    HeaderOrEndStart(l);
    assert StripNewlines(l) == l;
    GluedIsNoHeader(l);
    MarkerEnds();
    assert StripNewlines(l + MARKER) == l + MARKER;
    assert g[..|g| - 1] == l + MARKER;
    assert StripNewlines(g) == l + MARKER;
  }

  lemma MarkerEnds()
    ensures MARKER[|MARKER| - 1] == ']' && MARKER[0] == '['
  {
  }

  lemma MarkerHasSpace()
    ensures |MARKER| > 5 && MARKER[5] == ' '
  {
    assert Concat(MARKER_FIRST) == MARKER_FIRST[0] + Concat(MARKER_FIRST[1..]);
    assert MARKER[5] == MARKER_FIRST[0][4];
  }

  lemma GluedIsNoHeader(l: string)
    requires MatchHeader(l).Some?
    ensures MatchHeader(l + MARKER).None?
  {
    hide Concat;
    MarkerHasSpace();
    var s := l + MARKER;
    var rest := l[13..];
    var n := SolidLength(rest);
    assert s[13..] == rest + MARKER;
    SolidPrefix(rest, MARKER);
    var path := rest[n..][3..];
    assert (rest + MARKER)[n..][3..] == path + MARKER;
    assert (path + MARKER)[|path| + 5] == ' ';
  }

  lemma {:induction false} SolidPrefix(s: string, t: string)
    requires SolidLength(s) < |s|
    ensures SolidLength(s + t) == SolidLength(s)
    decreases |s|
  {
    if !IsSpace(s[0]) {
      assert (s + t)[1..] == s[1..] + t;
      SolidPrefix(s[1..], t);
    }
  }

  /** Everything before the last line. */
  function Before(lines: seq<string>): seq<string>
    requires lines != []
  {
    lines[..|lines| - 1]
  }

  lemma {:induction false} LinesBefore(lines: seq<string>)
    requires Lines(lines) && lines != []
    ensures Lines(Before(lines)) && IsLine(lines[|lines| - 1]) && !EndsOpen(Before(lines))
    decreases |lines|
  {
    if |lines| > 1 {
      LinesBefore(lines[1..]);
      assert Before(lines)[1..] == Before(lines[1..]);
    }
  }

  /** Stripping text a second time changes it exactly when it ends in a protected header without a line
      boundary and the machine is dropping in front of that header. */
  lemma StripTwice(text: string)
    ensures var lines := SplitLines(text);
      StripText(StripText(text)) == StripText(text) <==>
        !(EndsInOpenHeader(lines) && After(Before(lines), false))
  {
    hide StripLines;
    hide SplitLines;
    hide IsProtectedHeader;
    hide Terminated;
    hide After;
    var lines := SplitLines(text);
    SplitIsLines(text);
    if EndsInOpenHeader(lines) {
      StripTwiceOpen(text);
    } else {
      StripLinesAreLines(lines, false);
      SplitConcat(StripLines(lines, false));
      StripLinesTwice(lines, false);
    }
  }

  lemma StripTwiceOpen(text: string)
    requires EndsInOpenHeader(SplitLines(text))
    ensures StripText(StripText(text)) == StripText(text) <==> !After(Before(SplitLines(text)), false)
  {
    hide StripLines;
    hide SplitLines;
    hide After;
    hide LineLength;
    hide MatchHeader;
    hide MatchEnd;
    hide IsProtected;
    hide StripNewlines;
    hide MarkerLine;
    var lines := SplitLines(text);
    SplitIsLines(text);
    var before, l := Before(lines), lines[|lines| - 1];
    LinesBefore(lines);
    assert lines == before + [l];
    var out, dropping := StripLines(before, false), After(before, false);
    StripLinesAreLines(before, false);
    StripLinesTwice(before, false);
    StripConcat(before, [l], false);
    StripOne(l, dropping);
    assert StripLines(lines, false) == out + [l, MarkerLine()];
    var g := l + MarkerLine();
    GluedIsPlain(l);
    ConcatAppend(out, [l, MarkerLine()]);
    ConcatTwo(l, MarkerLine());
    ConcatAppend(out, [g]);
    ConcatTwo(g, "");
    assert StripText(text) == Concat(out) + g == Concat(out + [g]);
    assert Lines([g]) by { assert [g][1..] == []; }
    if out != [] { assert Terminated(out[|out| - 1]); }
    JoinedLines(out, [g]);
    SplitConcat(out + [g]);
    StripConcat(out, [g], false);
    StripOne(g, dropping);
    assert out + [] == out;
  }

  lemma ConcatTwo(a: string, b: string)
    ensures Concat([a, b]) == a + b && Concat([a]) == a
  {
    assert [b][1..] == [] && [a][1..] == [] && Concat([]) == "";
    assert Concat([b]) == b + "" == b && Concat([a]) == a + "" == a;
    assert [a, b][1..] == [b];
  }

  // ---- stripping parts ----

  lemma {:induction false} RemovedConcat(a: seq<string>, b: seq<string>)
    ensures Removed(a + b) == Removed(a) + Removed(b)
    decreases |a|
  {
    if a == [] {
      assert a + b == b;
    } else {
      assert (a + b)[1..] == a[1..] + b;
      RemovedConcat(a[1..], b);
    }
  }

  /** The paths recorded are the first paths of the protected headers, line by line. */
  lemma RemovedAt(lines: seq<string>, n: nat)
    requires n < |lines|
    ensures Removed(lines[..0]) == []
    ensures Removed(lines[..n + 1])
         == Removed(lines[..n]) + if IsProtectedHeader(lines[n]) then [Header(lines[n]).value.0] else []
  {
    hide IsProtectedHeader;
    assert lines[..n + 1] == lines[..n] + [lines[n]];
    RemovedConcat(lines[..n], [lines[n]]);
    assert [lines[n]][1..] == [];
  }

  /** A mailbox can be stripped in parts that start with a header or an end. */
  lemma StripParts(first: string, second: string)
    requires first == "" || first[|first| - 1] == '\n'
    requires second != "" ==> var l := SplitLines(second)[0]; IsHeader(l) || IsEnd(l)
    ensures StripText(first + second) == StripText(first) + StripText(second)
    ensures Removed(SplitLines(first + second)) == Removed(SplitLines(first)) + Removed(SplitLines(second))
  {
    hide StripLines;
    hide After;
    hide LineLength;
    hide MatchHeader;
    hide MatchEnd;
    hide IsProtected;
    hide StripNewlines;
    var a, b := SplitLines(first), SplitLines(second);
    SplitIsLines(first);
    SplitIsLines(second);
    if b != [] { HeaderOrEndStart(b[0]); }
    if a != [] { LastOfConcat(a); }
    JoinedLines(a, b);
    ConcatAppend(a, b);
    SplitConcat(a + b);
    StripConcat(a, b, false);
    RemovedConcat(a, b);
    StartsAfresh(b, After(a, false));
    ConcatAppend(StripLines(a, false), StripLines(b, false));
  }

  lemma {:induction false} LastOfConcat(lines: seq<string>)
    requires Lines(lines) && lines != []
    ensures var s, l := Concat(lines), lines[|lines| - 1]; s != "" && l != "" && s[|s| - 1] == l[|l| - 1]
    decreases |lines|
  {
    if |lines| > 1 {
      LastOfConcat(lines[1..]);
      assert lines[1..][|lines[1..]| - 1] == lines[|lines| - 1];
    }
  }

  lemma StartsAfresh(lines: seq<string>, dropping: bool)
    requires lines != [] ==> IsHeader(lines[0]) || IsEnd(lines[0])
    ensures StripLines(lines, dropping) == StripLines(lines, false)
  {
    hide IsHeader;
    hide IsEnd;
    hide IsProtectedHeader;
    if lines != [] {
      assert IsHeader(lines[0]) || IsEnd(lines[0]);
      assert Emit(lines[0], dropping) == Emit(lines[0], false);
      assert Next(lines[0], dropping) == Next(lines[0], false);
    }
  }
}
