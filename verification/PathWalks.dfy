/** What resolving a path means: which parts of it stay, and how far it climbs. */
module PathWalks {
  import opened Wrappers
  import opened Nesting
  import opened Paths

  // ---- walking ----

  lemma {:induction false} WalkConcat(from: seq<string>, a: seq<string>, b: seq<string>)
    ensures Walk(from, a + b) == Walk(Walk(from, a), b)
    decreases |a|
  {
    if a == [] {
      assert a + b == b;
    } else {
      assert (a + b)[0] == a[0] && (a + b)[1..] == a[1..] + b;
      if a[0] == "" || a[0] == "." { WalkConcat(from, a[1..], b); }
      else if a[0] == ".." { WalkConcat(if from == [] then [] else from[..|from| - 1], a[1..], b); }
      else { WalkConcat(from + [a[0]], a[1..], b); }
    }
  }

  /** Parts that say something. */
  function Proper(parts: seq<string>): (r: seq<string>)
    ensures forall i | 0 <= i < |r| :: r[i] != "" && r[i] != "."
  {
    if parts == [] then []
    else (if parts[0] == "" || parts[0] == "." then [] else [parts[0]]) + Proper(parts[1..])
  }

  /** Empty parts and single dots go nowhere. */
  lemma {:induction false} WalkProper(from: seq<string>, parts: seq<string>)
    ensures Walk(from, parts) == Walk(from, Proper(parts))
    decreases |parts|
  {
    if parts != [] {
      var rest := Proper(parts[1..]);
      if parts[0] == "" || parts[0] == "." {
        WalkProper(from, parts[1..]);
        assert Proper(parts) == rest;
      } else {
        assert Proper(parts)[0] == parts[0] && Proper(parts)[1..] == rest;
        WalkProper(if parts[0] != ".." then from + [parts[0]] else if from == [] then [] else from[..|from| - 1],
                   parts[1..]);
      }
    }
  }

  /** A plain part with two dots behind it can be left out. */
  lemma DownAndUp(from: seq<string>, a: seq<string>, p: string, b: seq<string>)
    requires Plain(p)
    ensures Walk(from, a + [p, ".."] + b) == Walk(from, a + b)
  {
    var there := Walk(from, a);
    WalkConcat(from, a + [p, ".."], b);
    WalkConcat(from, a, [p, ".."]);
    WalkConcat(from, a, b);
    assert [p, ".."][1..] == [".."] && [".."][1..] == [];
    assert (there + [p])[..|there|] == there;
    assert Walk(there, [p, ".."]) == Walk(there + [p], [".."]) == Walk(there, []);
  }

  // ---- by counting ----

  /** Two dots climb, everything else goes down. */
  function PartSteps(parts: seq<string>): (s: Steps)
    ensures |s| == |parts|
  {
    seq(|parts|, i requires 0 <= i < |parts| => if parts[i] == ".." then -1 else 1)
  }

  lemma {:induction false} StackIsInside(s: Steps, n: nat)
    requires n <= |s|
    ensures forall k | 0 <= k < |Stack(s, n)| :: Stack(s, n)[k] < n
  {
    StackIsOpen(s, n);
    forall k | 0 <= k < |Stack(s, n)| ensures Stack(s, n)[k] < n { OpenIsBefore(s, Stack(s, n)[k], n); }
  }

  /** The parts that no later two dots undo, among the first `n`. */
  function Staying(parts: seq<string>, n: nat): seq<string>
    requires n <= |parts|
  {
    var stack := Stack(PartSteps(parts), n);
    seq(|stack|, k requires 0 <= k < |stack| =>
      StackIsInside(PartSteps(parts), n); parts[stack[k]])
  }

  function Least(a: nat, b: nat): nat { if a < b then a else b }

  /** How many segments of `from` the first `n` parts climb over. */
  function Climbed(from: seq<string>, parts: seq<string>, n: nat): (c: nat)
    requires n <= |parts|
    ensures c <= |from|
  {
    Least(Fallen(PartSteps(parts), n), |from|)
  }

  /** Where a walk ends: what is left of the start, and behind it the parts that stay. */
  lemma {:induction false} WalkEnds(from: seq<string>, parts: seq<string>, n: nat)
    requires n <= |parts| && forall i | 0 <= i < |parts| :: parts[i] != "" && parts[i] != "."
    ensures Walk(from, parts[..n]) == from[..|from| - Climbed(from, parts, n)] + Staying(parts, n)
    decreases n
  {
    if n == 0 {
      assert parts[..0] == [] && from[..|from|] + [] == from;
      assert Staying(parts, 0) == [];
    } else {
      WalkEnds(from, parts, n - 1);
      assert parts[..n] == parts[..n - 1] + [parts[n - 1]];
      WalkConcat(from, parts[..n - 1], [parts[n - 1]]);
      OneMorePart(from, parts, n - 1);
    }
  }

  lemma OneMorePart(from: seq<string>, parts: seq<string>, n: nat)
    requires n < |parts| && parts[n] != "" && parts[n] != "."
    ensures Walk(from[..|from| - Climbed(from, parts, n)] + Staying(parts, n), [parts[n]])
         == from[..|from| - Climbed(from, parts, n + 1)] + Staying(parts, n + 1)
  {
    var s := PartSteps(parts);
    var left, kept := from[..|from| - Climbed(from, parts, n)], Staying(parts, n);
    var here := left + kept;
    LevelIsOpenLessFallen(s, n);
    assert [parts[n]][1..] == [];
    assert Stack(s, n + 1) == Stepped(s, n, Stack(s, n));
    if parts[n] == ".." {
      if kept == [] {
        assert here == left && Staying(parts, n + 1) == [];
      } else {
        assert Staying(parts, n + 1) == kept[..|kept| - 1];
        assert here[..|here| - 1] == left + kept[..|kept| - 1];
      }
    } else {
      assert Staying(parts, n + 1) == kept + [parts[n]];
      assert here + [parts[n]] == left + (kept + [parts[n]]);
    }
  }

  // ---- safe keys ----

  /** `base` with `c` of its segments taken back and `kept` put behind them lies strictly below `base`. */
  predicate ComesBack(base: seq<string>, c: nat, kept: seq<string>)
    requires c <= |base|
  {
    |kept| > c && kept[..c] == base[|base| - c..]
  }

  lemma BelowIff(base: seq<string>, c: nat, kept: seq<string>)
    requires c <= |base|
    ensures Below(base[..|base| - c] + kept, base) <==> ComesBack(base, c, kept)
  {
    var left := base[..|base| - c];
    var path := left + kept;
    assert base == left + base[|base| - c..];
    if |kept| > c {
      assert path[..|base|] == left + kept[..c];
      assert path[..|base|][|left|..] == kept[..c] && base[|left|..] == base[|base| - c..];
    }
  }

  /** A relative key is safe exactly when the parts that stay lead, from as far up as it climbs, back strictly below
      the base; empty parts and single dots do not count. An absolute key is safe exactly when the parts that stay
      begin with the base and go on. */
  lemma SafeByDepth(cwd: string, baseDir: string, key: string, decode: string -> Option<string>)
    ensures var decoded := if decode(key).Some? then decode(key).value else key;
      var parts := Proper(Split(decoded));
      var base, kept := Segments(cwd, baseDir), Staying(parts, |parts|);
      GetSafeFilePath(cwd, baseDir, key, decode, true).Ok? <==>
        && key != "" && '\0' !in decoded
        && if "/" <= decoded then Below(kept, base) else ComesBack(base, Climbed(base, parts, |parts|), kept)
  {
    hide Staying;
    hide Climbed;
    hide Split;
    hide Below;
    var decoded := if decode(key).Some? then decode(key).value else key;
    var parts := Proper(Split(decoded));
    var base := Segments(cwd, baseDir);
    SafeIff(cwd, baseDir, key, decode);
    SegmentsArePlain(cwd, baseDir);
    TextReadsBack(base);
    var from := if "/" <= decoded then [] else base;
    WalkProper(from, Split(decoded));
    WalkEnds(from, parts, |parts|);
    assert parts[..|parts|] == parts;
    assert Segments(Text(base), decoded) == Walk(from, parts);
    if "/" <= decoded {
      assert from[..|from| - Climbed(from, parts, |parts|)] + Staying(parts, |parts|) == Staying(parts, |parts|);
    } else {
      BelowIff(base, Climbed(base, parts, |parts|), Staying(parts, |parts|));
    }
  }

  lemma {:induction false} UpsClimb(from: seq<string>, n: nat)
    ensures Walk(from, Ups(n)) == from[..|from| - Least(n, |from|)]
    decreases n
  {
    if n == 0 {
      assert from[..|from|] == from;
    } else {
      assert Ups(n)[1..] == Ups(n - 1);
      var up := if from == [] then [] else from[..|from| - 1];
      UpsClimb(up, n - 1);
      assert up[..|up| - Least(n - 1, |up|)] == from[..|from| - Least(n, |from|)];
    }
  }

  /** Leading double dots climb as many segments as there are, and at the root none. */
  lemma ClimbThenDown(from: seq<string>, n: nat, down: seq<string>)
    requires AllPlain(down)
    ensures Walk(from, Ups(n) + down) == from[..|from| - Least(n, |from|)] + down
  {
    WalkConcat(from, Ups(n), down);
    UpsClimb(from, n);
    WalkPlain(from[..|from| - Least(n, |from|)], down);
  }

  /** A key that climbs first is refused unless what follows leads back strictly below the base. */
  lemma ClimbingKeys(cwd: string, baseDir: string, key: string, decode: string -> Option<string>,
                     n: nat, down: seq<string>)
    requires n > 0 && AllPlain(down) && decode(key) == Some(key) && '\0' !in key && Split(key) == Ups(n) + down
    ensures var base := Segments(cwd, baseDir);
      GetSafeFilePath(cwd, baseDir, key, decode, true).Ok? <==> ComesBack(base, Least(n, |base|), down)
  {
    hide Below;
    hide ComesBack;
    var base := Segments(cwd, baseDir);
    SafeIff(cwd, baseDir, key, decode);
    SegmentsArePlain(cwd, baseDir);
    TextReadsBack(base);
    ClimbThenDown(base, n, down);
    assert Split(key)[0] == "..";
    KeyStart(key);
    BelowIff(base, Least(n, |base|), down);
  }

  lemma KeyStart(key: string)
    ensures Split(key)[0] != "" ==> key != "" && key[0] != '/'
  {
  }

  /** What is refused, and why; without the check only keys that name nothing or hold a null character. */
  lemma Refusals(cwd: string, baseDir: string, key: string, decode: string -> Option<string>, check: bool)
    ensures var decoded := if decode(key).Some? then decode(key).value else key;
      var r := GetSafeFilePath(cwd, baseDir, key, decode, check);
      var path := Text(Segments(Resolve(cwd, baseDir), decoded));
      && (r == Err(NoKey) <==> key == "")
      && (r == Err(NullByte) <==> key != "" && '\0' in decoded)
      && (r == Err(Traversal) ==> check)
      && (r.Ok? ==> r.value == path)
  {
    hide Relative;
    hide Escapes;
    hide Segments;
  }
}
