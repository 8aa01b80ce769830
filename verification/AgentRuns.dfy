/** Runs of the agent executor, told by the states between their rounds. */
module AgentRuns {
  import opened Wrappers
  import opened Agents
  import opened AgentLoop
  import opened AgentIterator

  // ---- one round ----

  /** The actions that the agent asks for at this point, if it asks for any. */
  function Asked(env: Env, steps: seq<AgentStep>, round: nat): Option<seq<Action>> {
    match env.plan(steps, round)
    case Act(actions) => Some(actions)
    case Unparsable(log) =>
      if env.onParsingError.Some? then Some([Action("_Exception", env.onParsingError.value(log))]) else None
    case _ => None
  }

  /** All actions succeed, and `after` holds what they add, in plan order. */
  predicate Adds(env: Env, before: Run, round: nat, actions: seq<Action>, after: Run) {
    var all := Chosen(|actions|, true);
    && !SomeRejects(env, round, actions)
    && after.steps == before.steps + StepsOf(env, round, actions)
    && after.used == before.used + Gather(env, round, actions, UsedOf, all)
    && after.documents == before.documents + Gather(env, round, actions, DocumentsOf, all)
    && after.artifacts == before.artifacts + Gather(env, round, actions, ArtifactsOf, all)
    && after.plans == before.plans + 1
  }

  /** The last tool of all gives its result to the user. */
  predicate ReturnsDirectly(env: Env, steps: seq<AgentStep>)
    requires steps != []
  {
    var tool := FindTool(env, steps[|steps| - 1].action.tool);
    tool.Some? && tool.value.returnDirect
  }

  /** A round after which the run goes on. */
  predicate GoesOn(env: Env, before: Run, round: nat, after: Run) {
    var actions := Asked(env, before.steps, round);
    && actions.Some? && Adds(env, before, round, actions.value, after)
    && after.steps != [] && !ReturnsDirectly(env, after.steps) && after.ending == Running
  }

  /** How a run ends at the round that does not go on. */
  predicate EndsIn(env: Env, last: Run, round: nat, run: Run) {
    if env.maxIterations == Some(round) then run == last.(ending := Stopped(env.stopped(last.steps)))
    else if env.plan(last.steps, round).Finish? then
      run == last.(plans := last.plans + 1, ending := Finished(env.plan(last.steps, round).values))
    else
      var actions := Asked(env, last.steps, round);
      if actions.None? || SomeRejects(env, round, actions.value) then
        run == last.(plans := last.plans + 1, ending := Threw)
      else
        && Adds(env, last, round, actions.value, run)
        && if run.steps == [] then run.ending == Threw
           else ReturnsDirectly(env, run.steps) && run.ending == Direct(run.steps[|run.steps| - 1].observation)
  }

  /** A run that has ended, told by its states: after each but the last the run goes on, no more rounds are begun than
      the bound allows, and the last state decides the end. */
  predicate IsRun(env: Env, round: nat, states: seq<Run>, run: Run) {
    && states != []
    && (forall i | 0 <= i < |states| - 1 :: GoesOn(env, states[i], round + i, states[i + 1]))
    && (env.maxIterations.Some? ==> round + |states| - 1 <= env.maxIterations.value)
    && EndsIn(env, states[|states| - 1], round + |states| - 1, run)
  }

  // ---- the loop gives these runs ----

  /** One round of the loop: it ends the run, or goes on to the state that it gives. */
  lemma RoundMeans(env: Env, s: Run, round: nat, actions: seq<Action>)
    requires s.ending == Running && Asked(env, s.steps, round) == Some(actions)
    ensures var next := OrderedRound(env, s.(plans := s.plans + 1), round, actions);
      && Plan(env, s.steps, round) == Act(actions)
      && (forall after :: GoesOn(env, s, round, after) <==> next.ending == Running && after == next)
      && (env.maxIterations != Some(round) && next.ending != Running ==>
            forall run :: EndsIn(env, s, round, run) <==> run == next)
      && (env.maxIterations != Some(round) && next.ending == Running ==> forall run :: !EndsIn(env, s, round, run))
  {
    hide EffectOf;
    hide Gather;
    hide FindTool;
    hide StepsOf;
  }

  lemma NoRoundMeans(env: Env, s: Run, round: nat)
    requires s.ending == Running && Asked(env, s.steps, round).None? && env.maxIterations != Some(round)
    ensures !Plan(env, s.steps, round).Act?
    ensures forall run :: EndsIn(env, s, round, run) <==>
      run == s.(plans := s.plans + 1,
                ending := if Plan(env, s.steps, round).Finish? then Finished(Plan(env, s.steps, round).values)
                    else Threw)
    ensures forall after :: !GoesOn(env, s, round, after)
  {
  }

  /** Reading on from the second state of a run. */
  lemma LaterStates(env: Env, round: nat, states: seq<Run>, run: Run)
    requires |states| > 1
    ensures IsRun(env, round, states, run)
            <==> GoesOn(env, states[0], round, states[1]) && IsRun(env, round + 1, states[1..], run)
  {
    hide GoesOn;
    hide EndsIn;
    var rest := states[1..];
    assert forall i | 0 <= i < |rest| :: rest[i] == states[i + 1];
    if GoesOn(env, states[0], round, states[1]) && IsRun(env, round + 1, rest, run) {
      forall i | 0 <= i < |states| - 1 ensures GoesOn(env, states[i], round + i, states[i + 1]) {
        if i > 0 { assert GoesOn(env, rest[i - 1], round + 1 + (i - 1), rest[i - 1 + 1]); }
      }
    }
    if IsRun(env, round, states, run) {
      forall i | 0 <= i < |rest| - 1 ensures GoesOn(env, rest[i], round + 1 + i, rest[i + 1]) {
        assert GoesOn(env, states[i + 1], round + (i + 1), states[i + 1 + 1]);
      }
      assert GoesOn(env, states[0], round + 0, states[0 + 1]);
    }
  }

  lemma OneState(env: Env, round: nat, s: Run, run: Run)
    requires env.maxIterations.Some? ==> round <= env.maxIterations.value
    ensures IsRun(env, round, [s], run) <==> EndsIn(env, s, round, run)
  {
    hide EndsIn;
  }

  lemma {:induction false} CallIsRun(env: Env, s: Run, round: nat, fuel: nat) returns (states: seq<Run>)
    requires s.ending == Running && (env.maxIterations.Some? ==> round <= env.maxIterations.value)
    requires Call(env, None, s, round, fuel).ending != Running
    ensures 0 < |states| <= fuel && states[0] == s
    ensures IsRun(env, round, states, Call(env, None, s, round, fuel))
    decreases fuel
  {
    hide OrderedRound;
    hide GoesOn;
    hide IsRun;
    states := [s];
    OneState(env, round, s, Call(env, None, s, round, fuel));
    var actions := Asked(env, s.steps, round);
    if env.maxIterations != Some(round) {
      if actions.None? {
        NoRoundMeans(env, s, round);
      } else {
        RoundMeans(env, s, round, actions.value);
        var next := OrderedRound(env, s.(plans := s.plans + 1), round, actions.value);
        if next.ending == Running {
          var rest := CallIsRun(env, next, round + 1, fuel - 1);
          states := [s] + rest;
          LaterStates(env, round, states, Call(env, None, s, round, fuel));
        }
      }
    }
  }

  lemma {:induction false} RunIsCall(env: Env, states: seq<Run>, round: nat, fuel: nat, run: Run)
    requires IsRun(env, round, states, run) && states[0].ending == Running && |states| <= fuel
    ensures Call(env, None, states[0], round, fuel) == run && run.ending != Running
    decreases |states|
  {
    hide OrderedRound;
    hide GoesOn;
    hide EndsIn;
    var s := states[0];
    var actions := Asked(env, s.steps, round);
    if |states| > 1 {
      LaterStates(env, round, states, run);
      RoundGoesOn(env, s, round, states[1]);
      RunIsCall(env, states[1..], round + 1, fuel - 1, run);
    } else if env.maxIterations == Some(round) {
      StopsHere(env, s, round, run);
    } else if actions.None? {
      NoRoundMeans(env, s, round);
    } else {
      RoundMeans(env, s, round, actions.value);
    }
  }

  lemma StopsHere(env: Env, s: Run, round: nat, run: Run)
    requires env.maxIterations == Some(round) && EndsIn(env, s, round, run)
    ensures run == s.(ending := Stopped(env.stopped(s.steps)))
  {
  }

  lemma RoundGoesOn(env: Env, s: Run, round: nat, after: Run)
    requires s.ending == Running && GoesOn(env, s, round, after)
    ensures var actions := Asked(env, s.steps, round);
      && actions.Some? && after.ending == Running && Plan(env, s.steps, round) == Act(actions.value)
      && after == OrderedRound(env, s.(plans := s.plans + 1), round, actions.value)
  {
    hide OrderedRound;
    hide Adds;
    RoundMeans(env, s, round, Asked(env, s.steps, round).value);
  }

  /** The loop over ordered rounds ends with exactly the runs that are told so, the bound included. */
  lemma CallIsTheRun(env: Env, fuel: nat, run: Run)
    ensures Call(env, None, EMPTY_RUN, 0, fuel) == run && run.ending != Running
            <==> exists states :: 0 < |states| <= fuel && states[0] == EMPTY_RUN && IsRun(env, 0, states, run)
  {
    hide Call;
    hide IsRun;
    if Call(env, None, EMPTY_RUN, 0, fuel) == run && run.ending != Running {
      var states := CallIsRun(env, EMPTY_RUN, 0, fuel);
    }
    if exists states :: 0 < |states| <= fuel && states[0] == EMPTY_RUN && IsRun(env, 0, states, run) {
      var states :| 0 < |states| <= fuel && states[0] == EMPTY_RUN && IsRun(env, 0, states, run);
      RunIsCall(env, states, 0, fuel, run);
    }
  }

  // ---- the bound ----

  /** `n` rounds from the start, after each of which the run goes on. */
  predicate AllGoOn(env: Env, states: seq<Run>, n: nat) {
    && |states| == n + 1 && states[0] == EMPTY_RUN
    && forall i | 0 <= i < n :: GoesOn(env, states[i], i, states[i + 1])
  }

  lemma {:induction false} PlansAreRounds(env: Env, states: seq<Run>, n: nat)
    requires AllGoOn(env, states, n)
    ensures states[n].plans == n && states[n].ending == Running
  {
    hide SomeRejects;
    if n > 0 {
      PlansAreRounds(env, states[..n], n - 1);
      assert GoesOn(env, states[n - 1], n - 1, states[n - 1 + 1]);
    }
  }

  lemma RoundsGoOn(env: Env, states: seq<Run>, run: Run)
    requires IsRun(env, 0, states, run) && states[0] == EMPTY_RUN
    ensures AllGoOn(env, states, |states| - 1)
  {
    hide GoesOn;
    forall i | 0 <= i < |states| - 1 ensures GoesOn(env, states[i], i, states[i + 1]) {
      assert GoesOn(env, states[i], 0 + i, states[i + 1]);
    }
  }

  /** With a bound of `n` the run stops if and only if `n` rounds went on; it has then made `n` plan calls, and a run
      that ends otherwise makes one plan call more than rounds went on, and no more than `n`. */
  lemma StopsIff(env: Env, n: nat, fuel: nat)
    requires env.maxIterations == Some(n) && fuel > n
    ensures var run := Call(env, None, EMPTY_RUN, 0, fuel);
      && run.ending != Running
      && (run.ending.Stopped? <==> exists states :: AllGoOn(env, states, n))
      && (run.ending.Stopped? ==> run.plans == n)
      && (!run.ending.Stopped? ==>
            run.plans <= n && exists k: nat, states :: AllGoOn(env, states, k) && run.plans == k + 1)
  {
    hide Call;
    hide AllGoOn;
    var run := Call(env, None, EMPTY_RUN, 0, fuel);
    PlansAreBounded(env, None, EMPTY_RUN, 0, fuel);
    var states := CallIsRun(env, EMPTY_RUN, 0, fuel);
    var k := |states| - 1;
    RoundsGoOn(env, states, run);
    PlansAreRounds(env, states, k);
    EndOfRun(env, states[k], k, run);
    if exists others :: AllGoOn(env, others, n) {
      var others :| AllGoOn(env, others, n);
      StoppedRun(env, others, n, fuel);
    }
  }

  lemma EndOfRun(env: Env, last: Run, round: nat, run: Run)
    requires EndsIn(env, last, round, run) && last.ending == Running
    ensures run.ending.Stopped? <==> env.maxIterations == Some(round)
    ensures run.plans == last.plans + if run.ending.Stopped? then 0 else 1
  {
    hide SomeRejects;
  }

  lemma StoppedRun(env: Env, states: seq<Run>, n: nat, fuel: nat)
    requires AllGoOn(env, states, n) && env.maxIterations == Some(n) && fuel > n
    ensures Call(env, None, EMPTY_RUN, 0, fuel).ending.Stopped?
  {
    hide Call;
    hide GoesOn;
    PlansAreRounds(env, states, n);
    var run := states[n].(ending := Stopped(env.stopped(states[n].steps)));
    forall i | 0 <= i < |states| - 1 ensures GoesOn(env, states[i], 0 + i, states[i + 1]) {
      assert GoesOn(env, states[i], i, states[i + 1]);
    }
    assert EndsIn(env, states[|states| - 1], 0 + |states| - 1, run);
    RunIsCall(env, states, 0, fuel, run);
  }

  /** The same under any scheduler that completes its rounds. */
  lemma ScheduledStopsIff(env: Env, schedule: Scheduler, n: nat, fuel: nat)
    requires Joins(env, schedule) && env.maxIterations == Some(n) && fuel > n
    ensures var run := Call(env, Some(schedule), EMPTY_RUN, 0, fuel);
      && (run.ending.Stopped? <==> exists states :: AllGoOn(env, states, n))
      && (run.ending.Stopped? ==> run.plans == n)
      && (run.plans < n ==> !run.ending.Stopped?)
  {
    hide Call;
    hide AllGoOn;
    InterleavingsDoNotShow(env, schedule, fuel);
    StopsIff(env, n, fuel);
  }

  /** Without a bound a run never stops by itself. */
  lemma UnboundedNeverStops(env: Env, fuel: nat)
    requires env.maxIterations.None?
    ensures !Call(env, None, EMPTY_RUN, 0, fuel).ending.Stopped?
  {
    hide Call;
    var run := Call(env, None, EMPTY_RUN, 0, fuel);
    if run.ending != Running {
      var states := CallIsRun(env, EMPTY_RUN, 0, fuel);
      RoundsGoOn(env, states, run);
      PlansAreRounds(env, states, |states| - 1);
      EndOfRun(env, states[|states| - 1], |states| - 1, run);
    }
  }

  // ---- the bound of the iterator ----

  /** A call after which the stream goes on: it gives steps away, and no final output is reached. */
  predicate StreamGoesOn(env: Env, s: State, next: State) {
    var taken := NextStepOf(env, s.steps, s.iterations);
    && taken.Took? && DirectReturn(env, taken.steps).None?
    && next == State(None, s.steps + taken.steps, s.iterations + 1)
  }

  predicate AllStreamOn(env: Env, states: seq<State>, n: nat) {
    && |states| == n + 1
    && forall i | 0 <= i < n :: StreamGoesOn(env, states[i], states[i + 1])
  }

  lemma StreamStep(env: Env, states: seq<State>, n: nat)
    requires n > 0
    ensures AllStreamOn(env, states, n)
            <==> |states| == n + 1 && StreamGoesOn(env, states[0], states[1]) && AllStreamOn(env, states[1..], n - 1)
  {
    hide StreamGoesOn;
    if |states| == n + 1 {
      var rest := states[1..];
      assert forall i | 0 <= i < |rest| :: rest[i] == states[i + 1];
      if StreamGoesOn(env, states[0], states[1]) && AllStreamOn(env, rest, n - 1) {
        forall i | 0 <= i < n ensures StreamGoesOn(env, states[i], states[i + 1]) {
          if i > 0 { assert StreamGoesOn(env, rest[i - 1], rest[i - 1 + 1]); }
        }
      }
      if AllStreamOn(env, states, n) {
        forall i | 0 <= i < n - 1 ensures StreamGoesOn(env, rest[i], rest[i + 1]) {
          assert StreamGoesOn(env, states[i + 1], states[i + 1 + 1]);
        }
        assert StreamGoesOn(env, states[0], states[0 + 1]);
      }
    }
  }

  ghost predicate StreamsOn(env: Env, s: State, n: nat) {
    exists states :: |states| > 0 && AllStreamOn(env, states, n) && states[0] == s
  }

  lemma StatesAhead(env: Env, states: seq<State>, n: nat)
    requires n > 0 && AllStreamOn(env, states, n)
    ensures |states| > 1 && AllStreamOn(env, states[1..], n - 1) && states[1..][0] == states[1]
  {
    hide StreamGoesOn;
    StreamStep(env, states, n);
  }

  lemma StatesBehind(env: Env, s: State, next: State, rest: seq<State>, n: nat)
    requires n > 0 && StreamGoesOn(env, s, next) && AllStreamOn(env, rest, n - 1) && rest[0] == next
    ensures StreamsOn(env, s, n)
  {
    hide StreamGoesOn;
    var states := [s] + rest;
    assert states[1..] == rest;
    StreamStep(env, states, n);
  }

  lemma StreamsOnIff(env: Env, s: State, n: nat)
    requires n > 0
    ensures StreamsOn(env, s, n) <==> exists next :: StreamGoesOn(env, s, next) && StreamsOn(env, next, n - 1)
  {
    hide StreamGoesOn;
    hide AllStreamOn;
    if StreamsOn(env, s, n) {
      var states :| |states| > 0 && AllStreamOn(env, states, n) && states[0] == s;
      StreamStep(env, states, n);
      assert StreamsOn(env, states[1], n - 1) by { StatesAhead(env, states, n); }
    }
    if exists next :: StreamGoesOn(env, s, next) && StreamsOn(env, next, n - 1) {
      var next :| StreamGoesOn(env, s, next) && StreamsOn(env, next, n - 1);
      var rest :| |rest| > 0 && AllStreamOn(env, rest, n - 1) && rest[0] == next;
      StatesBehind(env, s, next, rest, n);
    }
  }

  /** With a bound, a stream returns the stopped response if and only if all the rounds that the bound allows went on,
      and then it has taken exactly that many. */
  lemma {:induction false} StreamStopsIff(env: Env, s: State, n: nat, fuel: nat)
    requires env.maxIterations == Some(s.iterations + n) && s.finalOutputs.None? && fuel > n + 1
    ensures var r := Stream(env, s, fuel);
      && r.how != Open
      && (r.how.Returned? && r.how.ending.Stopped? <==> StreamsOn(env, s, n))
      && (StreamsOn(env, s, n) ==>
            r.state.iterations == s.iterations + n && r.how == Returned(Stopped(env.stopped(r.state.steps))))
    decreases n
  {
    hide NextStepOf;
    hide DirectReturn;
    hide StreamsOn;
    StreamsAreBounded(env, s, fuel);
    var (next, called) := Next(env, s);
    if n == 0 {
      StreamsOnNothing(env, s);
      StreamReturns(env, next, fuel - 1);
    } else {
      StreamsOnIff(env, s, n);
      if called.Gives? && next.finalOutputs.None? {
        assert StreamGoesOn(env, s, next);
        StreamStopsIff(env, next, n - 1, fuel - 1);
        assert forall other :: StreamGoesOn(env, s, other) ==> other == next;
      } else {
        assert forall other :: !StreamGoesOn(env, s, other);
        if called.Gives? {
          StreamReturns(env, next, fuel - 1);
          DirectIsDirect(env, s);
        }
      }
    }
  }

  lemma StreamsOnNothing(env: Env, s: State)
    ensures StreamsOn(env, s, 0)
  {
    assert AllStreamOn(env, [s], 0) && [s][0] == s;
  }

  lemma StreamReturns(env: Env, s: State, fuel: nat)
    requires s.finalOutputs.Some? && fuel > 0
    ensures Stream(env, s, fuel) == Streamed([], s, Returned(s.finalOutputs.value))
  {
  }

  lemma DirectIsDirect(env: Env, s: State)
    requires ShouldContinue(env, s.iterations) && s.finalOutputs.None?
    ensures Next(env, s).0.finalOutputs.Some? ==> !Next(env, s).0.finalOutputs.value.Stopped?
  {
    hide NextStepOf;
    hide ReturnTool;
  }
}
