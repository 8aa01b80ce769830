/** The agent executor's other loop: an iterator that gives its steps away one round at a time. */
module AgentIterator {
  import opened Wrappers
  import opened ToolOutputs
  import opened Agents
  import opened AgentLoop

  // ---- one round, one action after the other ----

  /** The last tool of exactly that name. */
  function ExactTool(tools: seq<Tool>, name: string): Option<Tool>
    decreases |tools|
  {
    if tools == [] then None
    else
      var n := |tools| - 1;
      if tools[n].name == name then Some(tools[n]) else ExactTool(tools[..n], name)
  }

  /** The last tool whose name in lower case is `name` as it stands. */
  function ReturnTool(env: Env, tools: seq<Tool>, name: string): Option<Tool>
    decreases |tools|
  {
    if tools == [] then None
    else
      var n := |tools| - 1;
      if env.lower(tools[n].name) == name then Some(tools[n]) else ReturnTool(env, tools[..n], name)
  }

  /** The names of the tools, each at its first place. */
  function NameList(tools: seq<Tool>): seq<string>
    decreases |tools|
  {
    if tools == [] then []
    else
      var n := |tools| - 1;
      var before := NameList(tools[..n]);
      if tools[n].name in before then before else before + [tools[n].name]
  }

  /** The names of the tools are listed, and nothing else. */
  lemma {:induction false} NamesAreListed(tools: seq<Tool>)
    ensures (set name | name in NameList(tools)) == set t | t in tools :: t.name
    decreases |tools|
  {
    if tools != [] {
      var n := |tools| - 1;
      NamesAreListed(tools[..n]);
      assert tools == tools[..n] + [tools[n]];
      assert (set t | t in tools :: t.name) == (set t | t in tools[..n] :: t.name) + {tools[n].name};
      var before := NameList(tools[..n]);
      assert (set name | name in before + [tools[n].name]) == (set name | name in before) + {tools[n].name};
      if tools[n].name in before {
        assert tools[n].name in set name | name in before;
      }
    }
  }

  /** No name is listed twice. */
  lemma {:induction false} NamesAreDistinct(tools: seq<Tool>)
    ensures forall i, j | 0 <= i < j < |NameList(tools)| :: NameList(tools)[i] != NameList(tools)[j]
    decreases |tools|
  {
    if tools != [] {
      var before := NameList(tools[..|tools| - 1]);
      NamesAreDistinct(tools[..|tools| - 1]);
      assert forall i | 0 <= i < |before| :: before[i] in before;
    }
  }

  function JoinNames(names: seq<string>): string {
    if names == [] then "" else if |names| == 1 then names[0] else names[0] + ", " + JoinNames(names[1..])
  }

  /** The step of one action; `None` when the complaint of its tool is thrown. */
  function StepOf(env: Env, action: Action, round: nat): Option<AgentStep> {
    var tool := ExactTool(env.tools, action.tool);
    if tool.None? then
      Some(AgentStep(action,
          action.tool + " is not a valid tool, try another available tool: " + JoinNames(NameList(env.tools))))
    else
      match env.call(tool.value, action, round)
      case Observed(text) => Some(AgentStep(action, Explain(env.parse, text).output))
      case BadInput(message) =>
        if env.onParsingError.None? then None else Some(AgentStep(action, env.onParsingError.value(message)))
      case Failed(_) => Some(AgentStep(action, ""))
  }

  function StepsInOrder(env: Env, actions: seq<Action>, round: nat): Option<seq<AgentStep>> {
    if actions == [] then Some([])
    else
      var first := StepOf(env, actions[0], round);
      if first.None? then None
      else
        var rest := StepsInOrder(env, actions[1..], round);
        if rest.None? then None else Some([first.value] + rest.value)
  }

  datatype NextStep = Done(values: string) | Took(steps: seq<AgentStep>) | Raised

  function NextStepOf(env: Env, steps: seq<AgentStep>, iterations: nat): NextStep {
    match Plan(env, steps, iterations)
    case Finish(values) => Done(values)
    case Act(actions) =>
      var taken := StepsInOrder(env, actions, iterations);
      if taken.None? then Raised else Took(taken.value)
    case _ => Raised
  }

  method TakeNextStep(env: Env, steps: seq<AgentStep>, iterations: nat) returns (next: NextStep)
    ensures next == NextStepOf(env, steps, iterations)
  {
    hide StepOf;
    var output := Plan(env, steps, iterations);
    if output.Finish? { return Done(output.values); }
    if !output.Act? { return Raised; }
    var actions := output.actions;
    var result: seq<AgentStep> := [];
    ghost var all := StepsInOrder(env, actions, iterations);
    assert actions[0..] == actions;
    assert all.Some? ==> [] + all.value == all.value;
    for i := 0 to |actions|
      invariant var rest := StepsInOrder(env, actions[i..], iterations);
        if rest.None? then all.None? else all == Some(result + rest.value)
    {
      assert actions[i..][0] == actions[i] && actions[i..][1..] == actions[i + 1..];
      var step := StepOf(env, actions[i], iterations);
      if step.None? { return Raised; }
      ghost var rest := StepsInOrder(env, actions[i + 1..], iterations);
      assert rest.Some? ==> result + ([step.value] + rest.value) == result + [step.value] + rest.value;
      result := result + [step.value];
    }
    assert result + [] == result;
    return Took(result);
  }

  // ---- the iterator ----

  datatype State = State(finalOutputs: Option<Ending>, steps: seq<AgentStep>, iterations: nat)

  const START := State(None, [], 0)

  datatype Yielded = Steps(steps: seq<AgentStep>) | Output(ending: Ending)

  /** `Over` and `Broke` are the two ways to throw: the final outputs have been reached before, or something failed. */
  datatype Called = Gives(value: Yielded) | Over | Broke

  function DirectReturn(env: Env, steps: seq<AgentStep>): Option<Ending> {
    if |steps| != 1 then None
    else
      var tool := ReturnTool(env, env.tools, steps[0].action.tool);
      if tool.Some? && tool.value.returnDirect then Some(Direct(steps[0].observation)) else None
  }

  function Next(env: Env, s: State): (State, Called) {
    if s.finalOutputs.Some? then (s, Over)
    else if !ShouldContinue(env, s.iterations) then
      var ending := Stopped(env.stopped(s.steps));
      (s.(finalOutputs := Some(ending)), Gives(Output(ending)))
    else
      match NextStepOf(env, s.steps, s.iterations)
      case Raised => (s, Broke)
      case Done(values) =>
        (s.(finalOutputs := Some(Finished(values)), iterations := s.iterations + 1), Gives(Output(Finished(values))))
      case Took(steps) =>
        (State(DirectReturn(env, steps), s.steps + steps, s.iterations + 1), Gives(Steps(steps)))
  }

  datatype How = Open | Returned(ending: Ending) | Errored

  datatype Streamed = Streamed(results: seq<Yielded>, state: State, how: How)

  /** The stream from `s` on, observed for at most `fuel` calls. */
  function Stream(env: Env, s: State, fuel: nat): Streamed
    decreases fuel
  {
    if fuel == 0 then Streamed([], s, Open)
    else
      var (next, called) := Next(env, s);
      match called
      case Over => Streamed([], next, Returned(next.finalOutputs.value))
      case Broke => Streamed([], next, Errored)
      case Gives(value) =>
        var rest := Stream(env, next, fuel - 1);
        rest.(results := [value] + rest.results)
  }

  class Iterator {
    const env: Env
    var finalOutputs: Option<Ending>
    var intermediateSteps: seq<AgentStep>
    var iterations: nat

    ghost function Now(): State
      reads this
    {
      State(finalOutputs, intermediateSteps, iterations)
    }

    constructor (env: Env)
      ensures this.env == env && Now() == START
    {
      this.env := env;
      finalOutputs, intermediateSteps, iterations := None, [], 0;
    }

    method Reset()
      modifies this
      ensures Now() == START
    {
      finalOutputs, intermediateSteps, iterations := None, [], 0;
    }

    method ProcessNextStepOutput(next: NextStep) returns (value: Yielded)
      requires !next.Raised?
      modifies this
      ensures match next
        case Done(values) =>
          value == Output(Finished(values)) && Now() == old(Now()).(finalOutputs := Some(Finished(values)))
        case Took(steps) =>
          var direct := DirectReturn(env, steps);
          && value == Steps(steps)
          && Now() == old(Now()).(steps := old(intermediateSteps) + steps,
                                  finalOutputs := if direct.Some? then direct else old(finalOutputs))
    {
      hide ReturnTool;
      if next.Done? {
        finalOutputs := Some(Finished(next.values));
        return Output(Finished(next.values));
      }
      intermediateSteps := intermediateSteps + next.steps;
      if |next.steps| == 1 {
        var step := next.steps[0];
        var tool := ReturnTool(env, env.tools, step.action.tool);
        if tool.Some? && tool.value.returnDirect {
          finalOutputs := Some(Direct(step.observation));
        }
      }
      return Steps(next.steps);
    }

    method Stop() returns (value: Yielded)
      modifies this
      ensures value == Output(Stopped(env.stopped(intermediateSteps)))
      ensures Now() == old(Now()).(finalOutputs := Some(value.ending))
    {
      finalOutputs := Some(Stopped(env.stopped(intermediateSteps)));
      return Output(finalOutputs.value);
    }

    method CallNext() returns (called: Called)
      modifies this
      ensures (Now(), called) == Next(env, old(Now()))
    {
      hide NextStepOf;
      hide DirectReturn;
      if finalOutputs.Some? { return Over; }
      if !ShouldContinue(env, iterations) {
        var stopped := Stop();
        return Gives(stopped);
      }
      var next := TakeNextStep(env, intermediateSteps, iterations);
      if next.Raised? { return Broke; }
      var value := ProcessNextStepOutput(next);
      iterations := iterations + 1;
      return Gives(value);
    }

    /** `streamIterator`, observed for at most `fuel` calls. It starts afresh, whatever was streamed before. */
    method StreamIterator(fuel: nat) returns (results: seq<Yielded>, how: How)
      modifies this
      ensures Streamed(results, Now(), how) == Stream(env, START, fuel)
    {
      hide Next;
      Reset();
      results := [];
      ghost var all := Stream(env, START, fuel);
      assert [] + all.results == all.results;
      for i := 0 to fuel
        invariant var rest := Stream(env, Now(), fuel - i); all == rest.(results := results + rest.results)
      {
        ghost var before := Now();
        var called := CallNext();
        OverIsReached(env, before);
        match called {
          case Over =>
            assert results + [] == results;
            return results, Returned(finalOutputs.value);
          case Broke =>
            assert results + [] == results;
            return results, Errored;
          case Gives(value) =>
            ghost var rest := Stream(env, Now(), fuel - i - 1).results;
            assert results + ([value] + rest) == results + [value] + rest;
            results := results + [value];
        }
      }
      assert results + [] == results;
      return results, Open;
    }
  }

  lemma OverIsReached(env: Env, s: State)
    ensures Next(env, s).1.Over? ==> Next(env, s).0.finalOutputs.Some? && Next(env, s).0 == s
  {
    hide NextStepOf;
  }

  // ---- every stream ----

  function StepsYielded(results: seq<Yielded>): seq<AgentStep> {
    if results == [] then [] else (if results[0].Steps? then results[0].steps else []) + StepsYielded(results[1..])
  }

  /** What is given away is what is remembered: the steps yielded are the steps of the final state, in order. */
  lemma {:induction false} YieldsAreSteps(env: Env, s: State, fuel: nat)
    ensures Stream(env, s, fuel).state.steps == s.steps + StepsYielded(Stream(env, s, fuel).results)
    decreases fuel
  {
    hide NextStepOf;
    hide DirectReturn;
    if fuel > 0 {
      var (next, called) := Next(env, s);
      if called.Gives? {
        YieldsAreSteps(env, next, fuel - 1);
        var rest := Stream(env, next, fuel - 1).results;
        assert ([called.value] + rest)[1..] == rest;
      }
    }
  }

  /** With a bound, a stream makes at most that many rounds, gives at most one value more, and ends. */
  lemma {:induction false} StreamsAreBounded(env: Env, s: State, fuel: nat)
    requires env.maxIterations.Some? && s.iterations <= env.maxIterations.value
    ensures var left := env.maxIterations.value - s.iterations;
      var r := Stream(env, s, fuel);
      && r.state.iterations <= env.maxIterations.value
      && |r.results| <= left + 1
      && (s.finalOutputs.Some? ==> r.results == [])
      && (fuel > left + 1 ==> r.how != Open)
      && (s.finalOutputs.Some? && fuel > 0 ==> r.how != Open)
    decreases fuel
  {
    hide NextStepOf;
    hide DirectReturn;
    if fuel > 0 {
      var (next, called) := Next(env, s);
      if called.Gives? { StreamsAreBounded(env, next, fuel - 1); }
    }
  }
}
