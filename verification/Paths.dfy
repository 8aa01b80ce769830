/** Keeping a path inside a directory: the relative-path test and the prefix test, on POSIX paths. */
module Paths {
  import opened Wrappers

  datatype Error = NoKey | NullByte | Traversal

  // ---- segments ----

  predicate NoSlash(s: string) { '/' !in s }

  /** A segment that a resolved path can hold. */
  predicate Plain(s: string) { s != "" && s != "." && s != ".." && NoSlash(s) }

  predicate AllPlain(segments: seq<string>) { forall i | 0 <= i < |segments| :: Plain(segments[i]) }

  /** The parts between slashes, at least one. */
  function Split(s: string): (parts: seq<string>)
    ensures |parts| > 0 && forall i | 0 <= i < |parts| :: NoSlash(parts[i])
  {
    if s == "" then [""]
    else
      var rest := Split(s[1..]);
      if s[0] == '/' then [""] + rest else [[s[0]] + rest[0]] + rest[1..]
  }

  function Join(parts: seq<string>): string {
    if parts == [] then "" else if |parts| == 1 then parts[0] else parts[0] + "/" + Join(parts[1..])
  }

  function Text(segments: seq<string>): string { "/" + Join(segments) }

  /** Walking along `parts`: empty parts and dots stay, two dots go up, and up from the root is the root. */
  function Walk(from: seq<string>, parts: seq<string>): seq<string>
    decreases |parts|
  {
    if parts == [] then from
    else if parts[0] == "" || parts[0] == "." then Walk(from, parts[1..])
    else if parts[0] == ".." then Walk(if from == [] then [] else from[..|from| - 1], parts[1..])
    else Walk(from + [parts[0]], parts[1..])
  }

  function Segments(directory: string, path: string): seq<string> {
    if "/" <= path then Walk([], Split(path)) else Walk(Walk([], Split(directory)), Split(path))
  }

  /** `path.resolve` of an absolute directory and a path. */
  function Resolve(directory: string, path: string): string { Text(Segments(directory, path)) }

  function CommonLength(a: seq<string>, b: seq<string>): (n: nat)
    ensures n <= |a| && n <= |b| && a[..n] == b[..n]
    ensures n < |a| && n < |b| ==> a[n] != b[n]
  {
    if a == [] || b == [] || a[0] != b[0] then 0 else CommonLength(a[1..], b[1..]) + 1
  }

  function Ups(n: nat): (ups: seq<string>)
    ensures |ups| == n && forall i | 0 <= i < n :: ups[i] == ".."
  {
    if n == 0 then [] else [".."] + Ups(n - 1)
  }

  /** `path.relative` of two absolute paths. */
  function Relative(from: string, to: string): string {
    var a, b := Walk([], Split(from)), Walk([], Split(to));
    var n := CommonLength(a, b);
    Join(Ups(|a| - n) + b[n..])
  }

  // ---- the two tests ----

  predicate Escapes(relative: string) {
    relative == "" || relative == ".." || "../" <= relative || "/" <= relative
  }

  /** A safe path for `key` below `baseDir`; `decode` is percent-decoding, `None` when it fails. */
  function GetSafeFilePath(cwd: string, baseDir: string, key: string, decode: string -> Option<string>, check: bool)
    : Result<string, Error>
  {
    if key == "" then Err(NoKey)
    else
      var decoded := if decode(key).Some? then decode(key).value else key;
      if '\0' in decoded then Err(NullByte)
      else
        var base := Resolve(cwd, baseDir);
        var path := Resolve(base, decoded);
        if !check then Ok(path)
        else if Escapes(Relative(base, path)) then Err(Traversal)
        else Ok(path)
  }

  /** The path is one of the directories, or below one. */
  predicate IsWithinAllowed(path: string, allowed: seq<string>) {
    exists i | 0 <= i < |allowed| :: path == allowed[i] || allowed[i] + "/" <= path
  }

  // ---- resolved paths ----

  lemma {:induction false} WalkIsPlain(from: seq<string>, parts: seq<string>)
    requires AllPlain(from) && forall i | 0 <= i < |parts| :: NoSlash(parts[i])
    ensures AllPlain(Walk(from, parts))
    decreases |parts|
  {
    if parts != [] {
      if parts[0] == "" || parts[0] == "." {
        WalkIsPlain(from, parts[1..]);
      } else if parts[0] == ".." {
        WalkIsPlain(if from == [] then [] else from[..|from| - 1], parts[1..]);
      } else {
        WalkIsPlain(from + [parts[0]], parts[1..]);
      }
    }
  }

  lemma SegmentsArePlain(directory: string, path: string)
    ensures AllPlain(Segments(directory, path))
  {
    WalkIsPlain([], Split(directory));
    WalkIsPlain([], Split(path));
    WalkIsPlain(Walk([], Split(directory)), Split(path));
  }

  lemma {:induction false} SplitOne(s: string)
    requires NoSlash(s)
    ensures Split(s) == [s]
    decreases |s|
  {
    if s != "" {
      SplitOne(s[1..]);
      assert [s[0]] + s[1..] == s;
    }
  }

  lemma {:induction false} SplitFirst(s: string, rest: string)
    requires NoSlash(s)
    ensures Split(s + "/" + rest) == [s] + Split(rest)
    decreases |s|
  {
    var t := s + "/" + rest;
    if s == "" {
      assert t[1..] == rest;
    } else {
      assert t[0] == s[0] && t[1..] == s[1..] + "/" + rest;
      SplitFirst(s[1..], rest);
      assert [s[0]] + s[1..] == s;
    }
  }

  lemma {:induction false} SplitJoin(parts: seq<string>)
    requires parts != [] && forall i | 0 <= i < |parts| :: NoSlash(parts[i])
    ensures Split(Join(parts)) == parts
    decreases |parts|
  {
    if |parts| == 1 {
      SplitOne(parts[0]);
    } else {
      SplitJoin(parts[1..]);
      SplitFirst(parts[0], Join(parts[1..]));
    }
  }

  lemma {:induction false} WalkPlain(from: seq<string>, parts: seq<string>)
    requires AllPlain(parts)
    ensures Walk(from, parts) == from + parts
    decreases |parts|
  {
    if parts != [] {
      assert from + [parts[0]] + parts[1..] == from + parts;
      WalkPlain(from + [parts[0]], parts[1..]);
    }
  }

  /** Reading the text of a resolved path gives its segments. */
  lemma TextReadsBack(segments: seq<string>)
    requires AllPlain(segments)
    ensures Walk([], Split(Text(segments))) == segments
  {
    hide Join;
    SplitFirst("", Join(segments));
    assert "" + "/" + Join(segments) == Text(segments);
    assert ([""] + Split(Join(segments)))[1..] == Split(Join(segments));
    if segments == [] {
      JoinNothing();
      assert [""][1..] == [];
    } else {
      SplitJoin(segments);
      WalkPlain([], segments);
    }
  }

  lemma JoinNothing()
    ensures Join([]) == ""
  {
  }

  // ---- the relative-path test ----

  /** `path` lies strictly below `base`. */
  predicate Below(path: seq<string>, base: seq<string>) { |base| < |path| && path[..|base|] == base }

  lemma FirstPart(parts: seq<string>)
    requires parts != [] && parts[0] != "" && forall i | 0 <= i < |parts| :: NoSlash(parts[i])
    ensures Escapes(Join(parts)) <==> parts[0] == ".."
  {
    hide Join;
    var p, s := parts[0], Join(parts);
    JoinStart(parts);
    assert s[0] == p[0];
    if "../" <= s {
      assert s[2] == '/';
      assert |p| <= 2;
      assert p == s[..|p|];
      assert |p| == 2;
    }
  }

  lemma JoinStart(parts: seq<string>)
    requires parts != []
    ensures parts[0] <= Join(parts)
    ensures if |parts| == 1 then Join(parts) == parts[0]
            else |Join(parts)| > |parts[0]| && Join(parts)[|parts[0]|] == '/'
  {
  }

  /** The relative path escapes exactly when the path is not strictly below the base. */
  lemma EscapesIff(base: seq<string>, path: seq<string>)
    requires AllPlain(base) && AllPlain(path)
    ensures Escapes(Relative(Text(base), Text(path))) <==> !Below(path, base)
  {
    hide Walk;
    hide Split;
    TextReadsBack(base);
    TextReadsBack(path);
    var n := CommonLength(base, path);
    var parts := Ups(|base| - n) + path[n..];
    if parts != [] { FirstPart(parts); }
  }

  // ---- the prefix test ----

  /** Segments, each closed by a slash. */
  function Closed(segments: seq<string>): string {
    if segments == [] then "" else segments[0] + "/" + Closed(segments[1..])
  }

  lemma {:induction false} JoinClosed(segments: seq<string>)
    requires segments != []
    ensures Join(segments) + "/" == Closed(segments)
  {
    if |segments| > 1 { JoinClosed(segments[1..]); }
  }

  /** Text cut at its first slash. */
  lemma FirstSlash(a: string, s: string, b: string, t: string)
    requires NoSlash(a) && NoSlash(b)
    ensures a + "/" + s <= b + "/" + t <==> a == b && s <= t
  {
    var x, y := a + "/" + s, b + "/" + t;
    assert x[|a|] == '/' && y[|b|] == '/';
    assert x[|a| + 1..] == s && y[|b| + 1..] == t;
    if x <= y {
      assert forall i | 0 <= i < |a| :: x[i] == a[i];
      assert forall i | 0 <= i < |b| :: y[i] == b[i];
      assert y[|a|] == '/';
      assert |a| >= |b|;
      assert |a| == |b|;
      assert a == x[..|a|] == y[..|a|] == b;
    }
  }

  lemma {:induction false} ClosedPrefix(base: seq<string>, path: seq<string>)
    requires AllPlain(base) && AllPlain(path)
    ensures Closed(base) <= Join(path) <==> base == [] || Below(path, base)
    decreases |base|
  {
    if base != [] && path != [] {
      if |path| == 1 {
        assert Closed(base)[|base[0]|] == '/';
      } else {
        FirstSlash(base[0], Closed(base[1..]), path[0], Join(path[1..]));
        ClosedPrefix(base[1..], path[1..]);
        assert Below(path, base) <==> base[0] == path[0] && Below(path[1..], base[1..]) by {
          if Below(path, base) { assert path[1..][..|base| - 1] == path[..|base|][1..] == base[1..]; }
          if base[0] == path[0] && Below(path[1..], base[1..]) { assert path[..|base|] == base; }
        }
      }
    }
  }

  /** The prefix test says that the path is strictly below the base, unless the base is the root, for which it
      never holds. */
  lemma PrefixIff(base: seq<string>, path: seq<string>)
    requires AllPlain(base) && AllPlain(path)
    ensures Text(base) + "/" <= Text(path) <==> base != [] && Below(path, base)
  {
    hide Closed;
    if base == [] {
      assert Text(base) + "/" == "//";
      if path != [] { assert Text(path)[1] == path[0][0]; }
    } else {
      JoinClosed(base);
      ClosedPrefix(base, path);
      assert Text(base) + "/" == "/" + Closed(base);
      assert ("/" + Closed(base))[1..] == Closed(base) && Text(path)[1..] == Join(path);
    }
  }

  /** The relative-path test and the prefix test agree except at the base itself, which only the second allows, and
      when the base is the root, below which only the first allows paths. */
  lemma TestsAgree(base: seq<string>, path: seq<string>)
    requires AllPlain(base) && AllPlain(path)
    ensures (!Escapes(Relative(Text(base), Text(path))) <==> IsWithinAllowed(Text(path), [Text(base)])) <==>
      path != base && base != []
  {
    hide Escapes;
    hide Relative;
    hide Text;
    EscapesIff(base, path);
    PrefixIff(base, path);
    TextReadsBack(base);
    TextReadsBack(path);
    assert [Text(base)][0] == Text(base);
    assert path == base ==> !Below(path, base);
  }

  /** A resolved path is allowed exactly when it is one of the directories or strictly below one that is not the
      root. */
  lemma WithinIff(path: seq<string>, dirs: seq<seq<string>>, allowed: seq<string>)
    requires AllPlain(path) && |allowed| == |dirs|
    requires forall i | 0 <= i < |dirs| :: AllPlain(dirs[i]) && allowed[i] == Text(dirs[i])
    ensures IsWithinAllowed(Text(path), allowed) <==>
      exists i | 0 <= i < |dirs| :: path == dirs[i] || (dirs[i] != [] && Below(path, dirs[i]))
  {
    hide Text;
    hide Below;
    TextReadsBack(path);
    forall i | 0 <= i < |dirs|
      ensures path == dirs[i] || (dirs[i] != [] && Below(path, dirs[i])) <==>
        Text(path) == allowed[i] || allowed[i] + "/" <= Text(path)
    {
      TextReadsBack(dirs[i]);
      PrefixIff(dirs[i], path);
    }
  }

  // ---- safe paths ----

  /** With the check on, a path is given exactly when the key resolves to a path strictly below the base. */
  lemma SafeIff(cwd: string, baseDir: string, key: string, decode: string -> Option<string>)
    ensures var decoded := if decode(key).Some? then decode(key).value else key;
      var base := Segments(cwd, baseDir);
      var path := Segments(Text(base), decoded);
      GetSafeFilePath(cwd, baseDir, key, decode, true).Ok? <==>
        key != "" && '\0' !in decoded && Below(path, base)
  {
    hide Escapes;
    hide Relative;
    var decoded := if decode(key).Some? then decode(key).value else key;
    SegmentsArePlain(cwd, baseDir);
    var base := Segments(cwd, baseDir);
    SegmentsArePlain(Text(base), decoded);
    EscapesIff(base, Segments(Text(base), decoded));
  }

  lemma {:induction false} JoinAppend(a: seq<string>, b: seq<string>)
    requires b != []
    ensures Join(a + b) == Closed(a) + Join(b)
    decreases |a|
  {
    if a == [] {
      assert a + b == b;
    } else {
      assert (a + b)[1..] == a[1..] + b;
      JoinAppend(a[1..], b);
    }
  }

  /** The path given is the resolved base, a slash unless the base is the root, and at least one further segment;
      none of its segments is empty or made of one or two dots. */
  lemma SafePathExtendsBase(cwd: string, baseDir: string, key: string, decode: string -> Option<string>)
    requires GetSafeFilePath(cwd, baseDir, key, decode, true).Ok?
    ensures var base := Resolve(cwd, baseDir);
      exists rest | rest != [] && AllPlain(rest) ::
        GetSafeFilePath(cwd, baseDir, key, decode, true).value
            == (if base == "/" then base else base + "/") + Join(rest)
  {
    hide Escapes;
    hide Relative;
    hide Segments;
    hide Join;
    hide Closed;
    SafeIff(cwd, baseDir, key, decode);
    var decoded := if decode(key).Some? then decode(key).value else key;
    var base := Segments(cwd, baseDir);
    var path := Segments(Text(base), decoded);
    SegmentsArePlain(cwd, baseDir);
    SegmentsArePlain(Text(base), decoded);
    var rest := path[|base|..];
    assert path == base + rest;
    JoinAppend(base, rest);
    BaseText(base);
    assert AllPlain(rest) && Text(path) == (if Text(base) == "/" then Text(base) else Text(base) + "/") + Join(rest);
  }

  lemma BaseText(base: seq<string>)
    requires AllPlain(base)
    ensures "/" + Closed(base) == if Text(base) == "/" then Text(base) else Text(base) + "/"
  {
    if base != [] {
      JoinClosed(base);
      assert Text(base)[1] == base[0][0];
    }
  }

  /** A key whose parts are all plain is never refused, and its path is the base followed by those parts. */
  lemma PlainKeysAreSafe(cwd: string, baseDir: string, key: string, decode: string -> Option<string>)
    requires decode(key) == Some(key) && '\0' !in key && AllPlain(Split(key))
    ensures GetSafeFilePath(cwd, baseDir, key, decode, true) == Ok(Text(Segments(cwd, baseDir) + Split(key)))
  {
    hide Escapes;
    hide Relative;
    hide Join;
    var base := Segments(cwd, baseDir);
    SegmentsArePlain(cwd, baseDir);
    TextReadsBack(base);
    WalkPlain(base, Split(key));
    PlainStart(key);
    assert Segments(Text(base), key) == base + Split(key);
    SafeIff(cwd, baseDir, key, decode);
  }

  lemma PlainStart(key: string)
    requires AllPlain(Split(key))
    ensures key != "" && key[0] != '/'
  {
    assert Plain(Split(key)[0]);
  }
}
