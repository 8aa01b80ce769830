/** Exactly when the agent executor's loop and its iterator do the same. */
module AgentComparison {
  import opened Wrappers
  import opened ToolOutputs
  import opened Agents
  import opened AgentLoop
  import opened AgentIterator

  // ---- names ----

  /** The names of the tools are in lower case. */
  predicate LowerNames(env: Env) {
    forall i | 0 <= i < |env.tools| :: env.lower(env.tools[i].name) == env.tools[i].name
  }

  predicate PlainAction(env: Env, action: Action) {
    action.tool != "_Exception" && env.lower(action.tool) == action.tool
  }

  /** An answer that plans something and names its tools in lower case, or ends the run. */
  predicate PlainAnswer(env: Env, answer: PlanResult) {
    match answer
    case Act(actions) => actions != [] && forall i | 0 <= i < |actions| :: PlainAction(env, actions[i])
    case Unparsable(_) => env.onParsingError.None?
    case _ => true
  }

  lemma {:induction false} SameTool(env: Env, name: string, n: nat)
    requires n <= |env.tools| && env.lower(name) == name && LowerNames(env)
    ensures ToolByName(env, name, n) == ExactTool(env.tools[..n], name) == ReturnTool(env, env.tools[..n], name)
  {
    if n > 0 {
      assert env.tools[..n][..n - 1] == env.tools[..n - 1];
      SameTool(env, name, n - 1);
    }
  }

  lemma ToolsAgree(env: Env, name: string)
    requires env.lower(name) == name && LowerNames(env)
    ensures FindTool(env, name) == ExactTool(env.tools, name) == ReturnTool(env, env.tools, name)
  {
    assert env.tools[..|env.tools|] == env.tools;
    SameTool(env, name, |env.tools|);
  }

  // ---- one action ----

  /** The tool exists, and does not fail with a message. */
  predicate SameObservation(env: Env, action: Action, round: nat) {
    var tool := FindTool(env, action.tool);
    && tool.Some?
    && match env.call(tool.value, action, round)
       case Failed(message) => message == ""
       case _ => true
  }

  /** Both reject the same actions, and give the same step for an action exactly when its tool exists and does not
      fail with a message. */
  lemma StepsAgreeIff(env: Env, action: Action, round: nat)
    requires LowerNames(env) && PlainAction(env, action)
    ensures var e, step := EffectOf(env, action, round), StepOf(env, action, round);
      && (e.Rejects? <==> step.None?)
      && (e.Yields? ==> (step.value == e.step <==> SameObservation(env, action, round)))
  {
    hide FindTool;
    hide ExactTool;
    hide ReturnTool;
    ToolsAgree(env, action.tool);
    var text := action.tool + " is not a valid tool, try another one.";
    OutputIsStart(env.parse, text);
  }

  // ---- one round ----

  lemma {:induction false} StepsInOrderAre(env: Env, actions: seq<Action>, round: nat)
    ensures var steps := StepsInOrder(env, actions, round);
      && (steps.None? <==> exists i | 0 <= i < |actions| :: StepOf(env, actions[i], round).None?)
      && (steps.Some? ==>
            && |steps.value| == |actions|
            && forall i | 0 <= i < |actions| :: StepOf(env, actions[i], round) == Some(steps.value[i]))
  {
    hide StepOf;
    if actions != [] {
      var rest := actions[1..];
      StepsInOrderAre(env, rest, round);
      assert forall i | 0 <= i < |rest| :: rest[i] == actions[i + 1];
      assert forall i | 1 <= i < |actions| :: actions[i] == rest[i - 1];
    }
  }

  /** Where neither rejects, the two lists of steps are equal exactly when all observations are the same. */
  lemma ListsAgreeIff(env: Env, actions: seq<Action>, round: nat)
    requires LowerNames(env) && forall i | 0 <= i < |actions| :: PlainAction(env, actions[i])
    ensures var steps := StepsInOrder(env, actions, round);
      && (steps.None? <==> SomeRejects(env, round, actions))
      && (steps.Some? ==> |steps.value| == |actions|)
      && (!SomeRejects(env, round, actions) ==>
            && |StepsOf(env, round, actions)| == |actions|
            && (steps.value == StepsOf(env, round, actions)
             <==> forall i | 0 <= i < |actions| :: SameObservation(env, actions[i], round)))
  {
    hide EffectOf;
    hide StepOf;
    hide PlainAction;
    hide SameObservation;
    StepsInOrderAre(env, actions, round);
    forall i | 0 <= i < |actions|
      ensures var e, step := EffectOf(env, actions[i], round), StepOf(env, actions[i], round);
        && (e.Rejects? <==> step.None?)
        && (e.Yields? ==> (step.value == e.step <==> SameObservation(env, actions[i], round)))
    {
      StepsAgreeIff(env, actions[i], round);
    }
    if !SomeRejects(env, round, actions) {
      var steps, all := StepsInOrder(env, actions, round).value, StepsOf(env, round, actions);
      forall i | 0 <= i < |actions| ensures steps[i] == all[i] <==> SameObservation(env, actions[i], round) {
        assert EffectOf(env, actions[i], round).Yields?;
      }
    }
  }

  /** The last tool gives its result to the user. */
  predicate LastIsDirect(env: Env, actions: seq<Action>)
    requires actions != []
  {
    var tool := FindTool(env, actions[|actions| - 1].tool);
    tool.Some? && tool.value.returnDirect
  }

  /** A round is rejected by both; or all its observations are the same, and when the last tool returns directly it is
      the only one. */
  predicate Alike(env: Env, actions: seq<Action>, round: nat)
    requires actions != []
  {
    || SomeRejects(env, round, actions)
    || (&& (forall i | 0 <= i < |actions| :: SameObservation(env, actions[i], round))
        && (LastIsDirect(env, actions) ==> |actions| == 1))
  }

  /** The loop's round and the iterator's call have added the same steps, and end or go on in the same way. */
  predicate SameOutcome(run: Run, s: State, called: Called) {
    if run.ending == Threw then called.Broke?
    else
      && called.Gives? && s.steps == run.steps
      && s.finalOutputs == if run.ending == Running then None else Some(run.ending)
  }

  /** The state and the round stand at the same point, and the agent answers with these actions. */
  predicate Acts(env: Env, s: State, run: Run, actions: seq<Action>) {
    && s.steps == run.steps && s.finalOutputs.None? && run.ending == Running
    && ShouldContinue(env, s.iterations) && env.plan(s.steps, s.iterations) == Act(actions)
    && PlainAnswer(env, Act(actions))
  }

  lemma LoopRound(env: Env, run: Run, actions: seq<Action>, round: nat)
    requires actions != [] && run.ending == Running
    ensures var next := OrderedRound(env, run, round, actions);
      if SomeRejects(env, round, actions) then next == run.(ending := Threw)
      else
        var steps := StepsOf(env, round, actions);
        && next.steps == run.steps + steps
        && next.ending == (if LastIsDirect(env, actions) then Direct(steps[|steps| - 1].observation) else Running)
  {
    hide FindTool;
    hide Gather;
    hide EffectOf;
    if !SomeRejects(env, round, actions) {
      var steps, last := StepsOf(env, round, actions), |actions| - 1;
      assert EffectOf(env, actions[last], round).Yields?;
      EffectKeepsAction(env, actions[last], round);
      assert steps[last].action == actions[last];
      assert (run.steps + steps)[|run.steps + steps| - 1] == steps[last];
    }
  }

  lemma EffectKeepsAction(env: Env, action: Action, round: nat)
    ensures var e := EffectOf(env, action, round); e.Yields? ==> e.step.action == action
    ensures var step := StepOf(env, action, round); step.Some? ==> step.value.action == action
  {
  }

  lemma IteratorCall(env: Env, s: State, run: Run, actions: seq<Action>)
    requires Acts(env, s, run, actions) && LowerNames(env)
    ensures var steps := StepsInOrder(env, actions, s.iterations);
      var (next, called) := Next(env, s);
      if steps.None? then called.Broke? && next == s
      else
        && called == Gives(Steps(steps.value))
        && next.steps == s.steps + steps.value && next.iterations == s.iterations + 1
        && |steps.value| == |actions|
        && next.finalOutputs
        == (if |actions| == 1 && LastIsDirect(env, actions) then Some(Direct(steps.value[0].observation)) else None)
  {
    hide FindTool;
    hide ReturnTool;
    hide StepOf;
    StepsInOrderAre(env, actions, s.iterations);
    assert PlainAction(env, actions[0]);
    ToolsAgree(env, actions[0].tool);
    EffectKeepsAction(env, actions[0], s.iterations);
  }

  /** A round of the loop and a call of the iterator have the same outcome exactly when they are alike. */
  lemma RoundsAgreeIff(env: Env, s: State, run: Run, actions: seq<Action>)
    requires LowerNames(env) && Acts(env, s, run, actions)
    ensures var (next, called) := Next(env, s);
      SameOutcome(OrderedRound(env, run, s.iterations, actions), next, called) <==> Alike(env, actions, s.iterations)
  {
    hide Next;
    hide OrderedRound;
    hide StepsOf;
    hide StepsInOrder;
    hide LastIsDirect;
    hide SameObservation;
    hide PlainAction;
    LoopRound(env, run, actions, s.iterations);
    IteratorCall(env, s, run, actions);
    ListsAgreeIff(env, actions, s.iterations);
    if !SomeRejects(env, s.iterations, actions) {
      Cancels(s.steps, StepsInOrder(env, actions, s.iterations).value, StepsOf(env, s.iterations, actions));
    }
  }

  lemma Cancels(a: seq<AgentStep>, x: seq<AgentStep>, y: seq<AgentStep>)
    ensures a + x == a + y <==> x == y
  {
    assert (a + x)[|a|..] == x && (a + y)[|a|..] == y;
  }

  /** In particular, when neither rejects, all observations are the same and the last tool returns directly: the loop
      ends with its result, and the iterator has that final output exactly when it is the only tool. */
  lemma DirectResultsAgreeIff(env: Env, s: State, run: Run, actions: seq<Action>)
    requires LowerNames(env) && Acts(env, s, run, actions)
    requires !SomeRejects(env, s.iterations, actions) && LastIsDirect(env, actions)
    requires forall i | 0 <= i < |actions| :: SameObservation(env, actions[i], s.iterations)
    ensures var ending := OrderedRound(env, run, s.iterations, actions).ending;
      ending.Direct? && (Next(env, s).0.finalOutputs == Some(ending) <==> |actions| == 1)
  {
    hide Next;
    hide OrderedRound;
    hide StepsInOrder;
    hide StepsOf;
    hide SomeRejects;
    hide LastIsDirect;
    hide SameObservation;
    hide PlainAction;
    LoopRound(env, run, actions, s.iterations);
    IteratorCall(env, s, run, actions);
    ListsAgreeIff(env, actions, s.iterations);
  }

  // ---- whole runs ----

  /** As long as the loop runs, its answers are plain. */
  predicate PlainRun(env: Env, run: Run, iterations: nat, fuel: nat)
    decreases fuel
  {
    run.ending != Running || fuel == 0 || !ShouldContinue(env, iterations) ||
    (var answer := env.plan(run.steps, iterations);
     && PlainAnswer(env, answer)
     && (answer.Act? ==> PlainRun(env, After(env, run, iterations, answer.actions), iterations + 1, fuel - 1)))
  }

  /** All rounds of the loop are alike. */
  predicate AlikeRun(env: Env, run: Run, iterations: nat, fuel: nat)
    requires PlainRun(env, run, iterations, fuel)
    decreases fuel
  {
    run.ending != Running || fuel == 0 || !ShouldContinue(env, iterations) ||
    (var answer := env.plan(run.steps, iterations);
     answer.Act? ==>
       && Alike(env, answer.actions, iterations)
       && AlikeRun(env, After(env, run, iterations, answer.actions), iterations + 1, fuel - 1))
  }

  function After(env: Env, run: Run, iterations: nat, actions: seq<Action>): Run {
    OrderedRound(env, run.(plans := run.plans + 1), iterations, actions)
  }

  /** The stream remembers the steps of the run, and ends as it does. */
  predicate Matches(c: Run, r: Streamed) {
    r.state.steps == c.steps && r.how == if c.ending == Threw then Errored else Returned(c.ending)
  }

  lemma {:induction false} CallExtends(env: Env, run: Run, iterations: nat, fuel: nat)
    requires PlainRun(env, run, iterations, fuel)
    ensures run.steps <= Call(env, None, run, iterations, fuel).steps
    decreases fuel
  {
    hide OrderedRound;
    if run.ending == Running && fuel > 0 && ShouldContinue(env, iterations) {
      var answer := env.plan(run.steps, iterations);
      if answer.Act? {
        LoopRound(env, run.(plans := run.plans + 1), answer.actions, iterations);
        CallExtends(env, After(env, run, iterations, answer.actions), iterations + 1, fuel - 1);
      }
    }
  }

  /** A stream that goes on and returns a tool's result has taken another step. */
  lemma {:induction false} DirectNeedsAStep(env: Env, s: State, fuel: nat)
    requires s.finalOutputs.None?
    ensures var r := Stream(env, s, fuel);
      r.how.Returned? && r.how.ending.Direct? ==> |r.state.steps| > |s.steps|
    decreases fuel
  {
    hide NextStepOf;
    hide ReturnTool;
    if fuel > 0 {
      var (next, called) := Next(env, s);
      if called.Gives? {
        if next.finalOutputs.None? {
          DirectNeedsAStep(env, next, fuel - 1);
        } else {
          YieldsAreSteps(env, next, fuel - 1);
        }
      }
    }
  }

  /** Once the final outputs are reached, a stream returns them at its next call. */
  lemma ReachedMeansReturned(env: Env, s: State, fuel: nat)
    requires s.finalOutputs.Some? && fuel > 0
    ensures Stream(env, s, fuel) == Streamed([], s, Returned(s.finalOutputs.value))
  {
  }

  lemma PartedSteps(a: seq<AgentStep>, x: seq<AgentStep>, y: seq<AgentStep>, c: seq<AgentStep>, r: seq<AgentStep>)
    requires |x| == |y| && x != y && a + x <= c && a + y <= r
    ensures c != r
  {
    var i :| 0 <= i < |x| && x[i] != y[i];
    assert (a + x)[|a| + i] == x[i] && (a + y)[|a| + i] == y[i];
    assert c[|a| + i] == x[i] && r[|a| + i] == y[i];
  }

  /** After a round that is not alike, the run and the stream never match again. */
  lemma UnlikeRoundsPart(env: Env, s: State, run: Run, actions: seq<Action>, fuel: nat)
    requires LowerNames(env) && Acts(env, s, run, actions) && !Alike(env, actions, s.iterations)
    requires PlainRun(env, OrderedRound(env, run, s.iterations, actions), s.iterations + 1, fuel)
    ensures !Matches(Call(env, None, OrderedRound(env, run, s.iterations, actions), s.iterations + 1, fuel),
                     Stream(env, Next(env, s).0, fuel + 1))
  {
    hide OrderedRound;
    hide Next;
    hide StepsOf;
    hide StepsInOrder;
    hide LastIsDirect;
    hide SameObservation;
    hide PlainAction;
    hide PlainRun;
    hide Stream;
    var round := OrderedRound(env, run, s.iterations, actions);
    var next := Next(env, s).0;
    LoopRound(env, run, actions, s.iterations);
    IteratorCall(env, s, run, actions);
    ListsAgreeIff(env, actions, s.iterations);
    var c, r := Call(env, None, round, s.iterations + 1, fuel), Stream(env, next, fuel + 1);
    CallExtends(env, round, s.iterations + 1, fuel);
    YieldsAreSteps(env, next, fuel + 1);
    var inLoop, inStream := StepsOf(env, s.iterations, actions), StepsInOrder(env, actions, s.iterations).value;
    if inLoop != inStream {
      PartedSteps(s.steps, inLoop, inStream, c.steps, r.state.steps);
    } else {
      DirectNeedsAStep(env, next, fuel + 1);
    }
  }

  /** Whole runs: the stream gives the steps of the loop's run and returns its result if and only if all rounds of the
      run are alike. It needs one call more, to find its end. */
  lemma {:induction false} StreamMatchesIff(env: Env, s: State, run: Run, fuel: nat)
    requires LowerNames(env) && s.steps == run.steps
    requires PlainRun(env, run, s.iterations, fuel)
    requires if run.ending == Running then s.finalOutputs == None
             else run.ending != Threw && s.finalOutputs == Some(run.ending)
    requires Call(env, None, run, s.iterations, fuel).ending != Running
    ensures Matches(Call(env, None, run, s.iterations, fuel), Stream(env, s, fuel + 1))
            <==> AlikeRun(env, run, s.iterations, fuel)
    decreases fuel, 1
  {
    hide OrderedRound;
    hide NextStepOf;
    hide Alike;
    hide PlainAnswer;
    if run.ending == Running && ShouldContinue(env, s.iterations) && env.plan(run.steps, s.iterations).Act? {
      StreamMatchesIffActing(env, s, run, env.plan(run.steps, s.iterations).actions, fuel);
    } else {
      StreamMatchesEnding(env, s, run, fuel);
    }
  }

  lemma StreamMatchesEnding(env: Env, s: State, run: Run, fuel: nat)
    requires s.steps == run.steps && PlainRun(env, run, s.iterations, fuel)
    requires if run.ending == Running then s.finalOutputs == None
             else run.ending != Threw && s.finalOutputs == Some(run.ending)
    requires run.ending == Running ==>
      fuel > 0 && (!ShouldContinue(env, s.iterations) || !env.plan(run.steps, s.iterations).Act?)
    ensures Matches(Call(env, None, run, s.iterations, fuel), Stream(env, s, fuel + 1))
    ensures AlikeRun(env, run, s.iterations, fuel)
  {
    hide StepsInOrder;
    if run.ending != Running {
      ReachedMeansReturned(env, s, fuel + 1);
    } else {
      var (next, called) := Next(env, s);
      if called.Gives? { ReachedMeansReturned(env, next, fuel); }
    }
  }

  lemma {:induction false} StreamMatchesIffActing(env: Env, s: State, run: Run, actions: seq<Action>, fuel: nat)
    requires LowerNames(env) && s.steps == run.steps && s.finalOutputs == None
    requires PlainRun(env, run, s.iterations, fuel) && fuel > 0
    requires run.ending == Running && ShouldContinue(env, s.iterations)
    requires env.plan(run.steps, s.iterations) == Act(actions)
    requires Call(env, None, run, s.iterations, fuel).ending != Running
    ensures Matches(Call(env, None, run, s.iterations, fuel), Stream(env, s, fuel + 1))
            <==> AlikeRun(env, run, s.iterations, fuel)
    decreases fuel, 0
  {
    hide OrderedRound;
    hide Next;
    hide StepsInOrder;
    hide Alike;
    hide LastIsDirect;
    hide PlainAction;
    var planned := run.(plans := run.plans + 1);
    var round := OrderedRound(env, planned, s.iterations, actions);
    var (next, called) := Next(env, s);
    RoundsAgreeIff(env, s, planned, actions);
    LoopRound(env, planned, actions, s.iterations);
    IteratorCall(env, s, planned, actions);
    if !Alike(env, actions, s.iterations) {
      UnlikeRoundsPart(env, s, planned, actions, fuel - 1);
    } else if round.ending != Threw {
      StreamMatchesIff(env, next, round, fuel - 1);
    }
  }

  /** A run of the loop from the start, streamed: the steps given away and the way it ends are those of the run if and
      only if all rounds of the run are alike. */
  lemma StreamedCallAgreesIff(env: Env, fuel: nat)
    requires LowerNames(env) && PlainRun(env, EMPTY_RUN, 0, fuel)
    requires Call(env, None, EMPTY_RUN, 0, fuel).ending != Running
    ensures var c, r := Call(env, None, EMPTY_RUN, 0, fuel), Stream(env, START, fuel + 1);
      (&& StepsYielded(r.results) == c.steps
       && r.how == (if c.ending == Threw then Errored else Returned(c.ending)))
      <==> AlikeRun(env, EMPTY_RUN, 0, fuel)
  {
    hide Call;
    hide Stream;
    hide PlainRun;
    hide AlikeRun;
    hide StepsYielded;
    StreamMatchesIff(env, START, EMPTY_RUN, fuel);
    YieldsAreSteps(env, START, fuel + 1);
    var steps := StepsYielded(Stream(env, START, fuel + 1).results);
    assert [] + steps == steps;
  }

  // ---- an agent on which they part ----

  const ASK := Action("t", "")

  /** One tool that returns directly, asked twice in the first round; then the agent finishes. */
  const TWICE: Env := Env(
    [Tool("t", true)],
    name => name,
    (steps, iterations) => if iterations == 0 then Act([ASK, ASK]) else Finish("done"),
    (tool, action, round) => Observed("x"),
    text => None,
    None,
    None,
    steps => "stopped")

  lemma TwiceActs()
    ensures LowerNames(TWICE) && Acts(TWICE, START, EMPTY_RUN, [ASK, ASK])
    ensures FindTool(TWICE, "t") == Some(Tool("t", true))
    ensures StepOf(TWICE, ASK, 0) == Some(AgentStep(ASK, "x")) && SameObservation(TWICE, ASK, 0)
  {
    var tools := TWICE.tools;
    assert tools[0].name == "t";
    assert ToolByName(TWICE, "t", 1) == Some(tools[0]);
    assert ExactTool(tools, "t") == Some(tools[0]);
  }

  /** The loop ends with the tool's result after the first round, and the iterator has no final output then: both have
      taken the same two steps. */
  lemma TwoDirectToolsPart()
    ensures var round, next := OrderedRound(TWICE, EMPTY_RUN, 0, [ASK, ASK]), Next(TWICE, START).0;
      && round.ending == Direct("x") && next.finalOutputs.None?
      && round.steps == next.steps == [AgentStep(ASK, "x"), AgentStep(ASK, "x")]
  {
    hide OrderedRound;
    hide Next;
    hide StepOf;
    hide EffectOf;
    hide FindTool;
    var actions := [ASK, ASK];
    TwiceActs();
    StepsAgreeIff(TWICE, ASK, 0);
    assert !SomeRejects(TWICE, 0, actions) by {
      forall i | 0 <= i < |actions| ensures !EffectOf(TWICE, actions[i], 0).Rejects? { assert actions[i] == ASK; }
    }
    LoopRound(TWICE, EMPTY_RUN, actions, 0);
    IteratorCall(TWICE, START, EMPTY_RUN, actions);
    ListsAgreeIff(TWICE, actions, 0);
    StepsInOrderAre(TWICE, actions, 0);
    var steps := StepsInOrder(TWICE, actions, 0).value;
    assert steps == [AgentStep(ASK, "x"), AgentStep(ASK, "x")];
    assert [] + steps == steps;
  }
}
