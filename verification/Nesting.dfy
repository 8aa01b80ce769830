/** What opens, what closes, and what is still open, by counting. */
module Nesting {

  /** One entry for each position: 1 opens, -1 closes, 0 does neither. */
  type Steps = s: seq<int> | forall i | 0 <= i < |s| :: -1 <= s[i] <= 1

  /** How many more positions open than close from `a` up to (not including) `b`. */
  function Level(s: Steps, a: nat, b: nat): int
    requires a <= b <= |s|
    decreases b
  {
    if a == b then 0 else Level(s, a, b - 1) + s[b - 1]
  }

  /** The level behind position `i`. */
  function Above(s: Steps, i: nat, n: nat): int
    requires i < n <= |s|
  {
    Level(s, i + 1, n)
  }

  /** Position `i` opens, and what opens behind it closes before anything else does. */
  ghost predicate IsOpen(s: Steps, i: nat, n: nat) {
    i < n <= |s| && s[i] == 1 && forall m: nat | i < m <= n :: Above(s, i, m) >= 0
  }

  /** The closing position `j` belongs to `i`: everything between them is closed. */
  ghost predicate Matches(s: Steps, i: nat, j: nat) {
    j < |s| && s[j] == -1 && IsOpen(s, i, j) && Above(s, i, j) == 0
  }

  /** The positions that a stack holds after the first `n` steps. */
  function Stack(s: Steps, n: nat): seq<nat>
    requires n <= |s|
  {
    if n == 0 then []
    else Stepped(s, n - 1, Stack(s, n - 1))
  }

  /** The stack holds exactly the open positions, and each knows how many are above it. */
  ghost predicate IsStack(s: Steps, n: nat, stack: seq<nat>)
    requires n <= |s|
  {
    && (forall k | 0 <= k < |stack| ::
          IsOpen(s, stack[k], n) && Above(s, stack[k], n) == |stack| - 1 - k)
    && (forall i: nat | IsOpen(s, i, n) :: i in stack)
  }

  lemma OpenBefore(s: Steps, i: nat, n: nat)
    requires i < n < |s|
    ensures IsOpen(s, i, n + 1) <==> IsOpen(s, i, n) && Above(s, i, n) + s[n] >= 0
  {
    assert Above(s, i, n + 1) == Above(s, i, n) + s[n];
    if IsOpen(s, i, n) && Above(s, i, n) + s[n] >= 0 {
      forall m: nat | i < m <= n + 1 ensures Above(s, i, m) >= 0 {}
    }
  }

  lemma OpensNow(s: Steps, n: nat)
    requires n < |s|
    ensures (IsOpen(s, n, n + 1) <==> s[n] == 1) && Above(s, n, n + 1) == 0
  {
  }

  /** One step keeps the stack right. */
  lemma StepKeepsStack(s: Steps, n: nat, below: seq<nat>)
    requires n < |s| && IsStack(s, n, below)
    ensures IsStack(s, n + 1, Stepped(s, n, below))
  {
    hide IsOpen;
    hide Above;
    var stack := Stepped(s, n, below);
    OpensNow(s, n);
    forall i: nat | i < n ensures IsOpen(s, i, n + 1) <==> IsOpen(s, i, n) && Above(s, i, n) + s[n] >= 0 {
      OpenBefore(s, i, n);
    }
    forall k | 0 <= k < |stack|
      ensures stack[k] <= n && IsOpen(s, stack[k], n + 1) && Above(s, stack[k], n + 1) == |stack| - 1 - k
    {
      if k < |below| {
        OpenIsBefore(s, below[k], n);
        AboveOneMore(s, below[k], n);
      }
    }
    forall i: nat | IsOpen(s, i, n + 1) ensures i in stack {
      OpenIsBefore(s, i, n + 1);
      if i == n {
        assert stack[|below|] == i;
      } else {
        assert IsOpen(s, i, n) && i in below;
        var k :| 0 <= k < |below| && below[k] == i;
        assert stack[k] == i;
      }
    }
  }

  function Stepped(s: Steps, n: nat, stack: seq<nat>): seq<nat>
    requires n < |s|
  {
    if s[n] == 1 then stack + [n] else if s[n] == -1 && stack != [] then stack[..|stack| - 1] else stack
  }

  lemma AboveOneMore(s: Steps, i: nat, n: nat)
    requires i < n < |s|
    ensures Above(s, i, n + 1) == Above(s, i, n) + s[n]
  {
  }

  lemma {:induction false} StackIsOpen(s: Steps, n: nat)
    requires n <= |s|
    ensures IsStack(s, n, Stack(s, n))
  {
    hide IsOpen;
    if n == 0 {
      forall i: nat ensures !IsOpen(s, i, 0) { NothingIsOpen(s, i); }
    } else {
      StackIsOpen(s, n - 1);
      StepKeepsStack(s, n - 1, Stack(s, n - 1));
    }
  }

  lemma NothingIsOpen(s: Steps, i: nat)
    ensures !IsOpen(s, i, 0)
  {
  }

  lemma OpenIsBefore(s: Steps, i: nat, n: nat)
    requires IsOpen(s, i, n)
    ensures i < n
  {
  }

  /** A closing position belongs to the top of the stack, and to nothing else. */
  lemma MatchIsTop(s: Steps, stack: seq<nat>, i: nat, j: nat)
    requires j < |s| && s[j] == -1 && IsStack(s, j, stack)
    ensures Matches(s, i, j) <==> stack != [] && i == stack[|stack| - 1]
  {
    hide IsOpen;
    if Matches(s, i, j) {
      assert i in stack;
      var k :| 0 <= k < |stack| && stack[k] == i;
    }
  }

  // ---- what closes without having been opened ----

  /** How far the level has fallen below where it began. */
  function Fallen(s: Steps, n: nat): nat
    requires n <= |s|
  {
    if n == 0 then 0
    else
      var before, level := Fallen(s, n - 1), Level(s, 0, n);
      if -level > before then -level else before
  }

  /** The level is what is open, less what has closed without having been opened. */
  lemma {:induction false} LevelIsOpenLessFallen(s: Steps, n: nat)
    requires n <= |s|
    ensures Level(s, 0, n) == |Stack(s, n)| - Fallen(s, n)
  {
    if n > 0 { LevelIsOpenLessFallen(s, n - 1); }
  }

  /** How far the level has fallen: as far as its lowest point, and never above where it began. */
  lemma {:induction false} FallenIsLowest(s: Steps, n: nat)
    requires n <= |s|
    ensures forall m: nat | m <= n :: -Level(s, 0, m) <= Fallen(s, n)
    ensures exists m: nat | m <= n :: Fallen(s, n) == -Level(s, 0, m)
  {
    if n == 0 {
      assert Level(s, 0, 0) == 0;
    } else {
      FallenIsLowest(s, n - 1);
      assert Fallen(s, n) == -Level(s, 0, n) || Fallen(s, n) == Fallen(s, n - 1);
    }
  }
}
