/** The plan and act loop of the agent executor, whose tool calls of one round run concurrently. */
module Agents {
  import opened Wrappers
  import opened ToolOutputs

  datatype Action = Action(tool: string, toolInput: string)

  datatype AgentStep = AgentStep(action: Action, observation: string)

  datatype Tool = Tool(name: string, returnDirect: bool)

  datatype UsedTool = UsedTool(tool: string, toolInput: string, toolOutput: string, error: Option<string>)

  /** How a tool call ends; `BadInput` is the tool's complaint about its input. */
  datatype CallResult = Observed(text: string) | BadInput(message: string) | Failed(message: string)

  datatype PlanResult =
    | Finish(values: string)
    | Act(actions: seq<Action>)
    | Unparsable(log: string)
    | PlanError(message: string)

  /** What a run depends on. The answers of the agent and of the tools are functions of what they are asked:
      a call of the i-th round does not see the order in which that round's calls are finished. */
  datatype Env = Env(
    tools: seq<Tool>,
    lower: string -> string,
    plan: (seq<AgentStep>, nat) -> PlanResult,
    call: (Tool, Action, nat) -> CallResult,
    parse: string -> Option<string>,
    onParsingError: Option<string -> string>,
    maxIterations: Option<nat>,
    stopped: seq<AgentStep> -> string)

  /** Stands in for an action made from an answer of the agent that could not be parsed. */
  const EXCEPTION_TOOL := Tool("_Exception", false)

  /** The last tool of that name, letter case aside. */
  function ToolByName(env: Env, name: string, n: nat): Option<Tool>
    requires n <= |env.tools|
  {
    if n == 0 then None
    else if env.lower(env.tools[n - 1].name) == env.lower(name) then Some(env.tools[n - 1])
    else ToolByName(env, name, n - 1)
  }

  function FindTool(env: Env, name: string): Option<Tool> { ToolByName(env, name, |env.tools|) }

  function ResolveTool(env: Env, action: Action): Option<Tool> {
    if action.tool == "_Exception" then Some(EXCEPTION_TOOL) else FindTool(env, action.tool)
  }

  function CallTool(env: Env, tool: Tool, action: Action, round: nat): CallResult {
    if action.tool == "_Exception" then Observed(action.toolInput) else env.call(tool, action, round)
  }

  // ---- one action ----

  function Listed<T>(o: Option<T>): seq<T> { if o.Some? then [o.value] else [] }

  /** What one action contributes: its step, and what it pushes onto the shared lists. */
  datatype Effect =
    | Rejects(error: string)
    | Yields(step: AgentStep, used: seq<UsedTool>, documents: seq<string>, artifacts: seq<string>)

  function ObservedEffect(env: Env, action: Action, text: string, used: seq<UsedTool>): Effect {
    var parts := Explain(env.parse, text);
    Yields(AgentStep(action, parts.output), used, Listed(parts.document), Listed(parts.artifact))
  }

  function EffectOf(env: Env, action: Action, round: nat): Effect {
    var tool := ResolveTool(env, action);
    if tool.None? then ObservedEffect(env, action, action.tool + " is not a valid tool, try another one.", [])
    else
      match CallTool(env, tool.value, action, round)
      case Observed(text) =>
        var parts := Explain(env.parse, text);
        var input := if parts.toolInput.Some? then parts.toolInput.value else action.toolInput;
        ObservedEffect(env, action, text, [UsedTool(tool.value.name, input, parts.output, None)])
      case BadInput(message) =>
        if env.onParsingError.None? then Rejects(message)
        else
          var used := UsedTool(tool.value.name, action.toolInput, "", Some(message));
          Yields(AgentStep(action, env.onParsingError.value(message)), [used], [], [])
      case Failed(message) =>
        Yields(AgentStep(action, message), [UsedTool(tool.value.name, action.toolInput, "", Some(message))], [], [])
  }

  // ---- one round, interleaved ----

  /** Where an action's function is waiting. */
  datatype Phase = Announcing | Calling | Explaining | Settled

  function NextPhase(env: Env, action: Action, round: nat, phase: Phase): Phase {
    var tool := ResolveTool(env, action);
    match phase
    case Announcing => if tool.Some? then Calling else Settled
    case Calling =>
      if tool.Some? && CallTool(env, tool.value, action, round).BadInput? && env.onParsingError.Some? then Explaining
      else Settled
    case _ => Settled
  }

  /** The shared lists, and for each action where it is and what it has returned. */
  datatype Round = Round(
    phases: seq<Phase>,
    slots: seq<Option<AgentStep>>,
    used: seq<UsedTool>,
    documents: seq<string>,
    artifacts: seq<string>,
    rejected: Option<string>)

  predicate Fits(r: Round, actions: seq<Action>) { |r.phases| == |actions| && |r.slots| == |actions| }

  function StartRound(actions: seq<Action>, used: seq<UsedTool>, documents: seq<string>,
                      artifacts: seq<string>): (r: Round)
    ensures Fits(r, actions)
  {
    Round(seq(|actions|, i => Announcing), seq(|actions|, i => None), used, documents, artifacts, None)
  }

  /** Action `i` is resumed and runs up to its next await, or to its end. */
  function Resume(env: Env, round: nat, actions: seq<Action>, r: Round, i: nat): (r': Round)
    requires Fits(r, actions)
    ensures Fits(r', actions)
  {
    if i >= |actions| || r.phases[i] == Settled then r
    else
      var phase := NextPhase(env, actions[i], round, r.phases[i]);
      var moved := r.(phases := r.phases[i := phase]);
      if phase != Settled then moved
      else
        match EffectOf(env, actions[i], round)
        case Rejects(error) => moved.(rejected := if r.rejected.Some? then r.rejected else Some(error))
        case Yields(step, used, documents, artifacts) =>
          moved.(slots := r.slots[i := Some(step)],
                 used := r.used + used,
                 documents := r.documents + documents,
                 artifacts := r.artifacts + artifacts)
  }

  function Interleave(env: Env, round: nat, actions: seq<Action>, r: Round, schedule: seq<nat>): (r': Round)
    requires Fits(r, actions)
    ensures Fits(r', actions)
    decreases |schedule|
  {
    if schedule == [] then r
    else Interleave(env, round, actions, Resume(env, round, actions, r, schedule[0]), schedule[1..])
  }

  predicate AllSettled(r: Round) { forall i | 0 <= i < |r.phases| :: r.phases[i] == Settled }

  /** The joint promise has been settled: one action has rejected it, or all have returned. */
  predicate Joined(r: Round) { r.rejected.Some? || AllSettled(r) }

  // ---- one round, in plan order ----

  predicate SomeRejects(env: Env, round: nat, actions: seq<Action>) {
    exists i | 0 <= i < |actions| :: EffectOf(env, actions[i], round).Rejects?
  }

  function StepsOf(env: Env, round: nat, actions: seq<Action>): seq<AgentStep>
    requires !SomeRejects(env, round, actions)
  {
    seq(|actions|, i requires 0 <= i < |actions| =>
      assert EffectOf(env, actions[i], round).Yields?; EffectOf(env, actions[i], round).step)
  }

  function UsedOf(e: Effect): seq<UsedTool> { if e.Yields? then e.used else [] }

  function DocumentsOf(e: Effect): seq<string> { if e.Yields? then e.documents else [] }

  function ArtifactsOf(e: Effect): seq<string> { if e.Yields? then e.artifacts else [] }

  /** What the chosen actions push onto one of the lists, in plan order. */
  function Gather<T>(env: Env, round: nat, actions: seq<Action>, of: Effect -> seq<T>, chosen: seq<bool>): seq<T>
    requires |chosen| == |actions|
    decreases |actions|
  {
    if actions == [] then []
    else
      (if chosen[0] then of(EffectOf(env, actions[0], round)) else [])
      + Gather(env, round, actions[1..], of, chosen[1..])
  }

  function SettledOnes(r: Round): seq<bool> {
    seq(|r.phases|, i requires 0 <= i < |r.phases| => r.phases[i] == Settled)
  }

  function Chosen(n: nat, b: bool): seq<bool> { seq(n, i => b) }

  // ---- any interleaving does what the plan order does ----

  lemma {:induction false} GatherOneMore<T>(env: Env, round: nat, actions: seq<Action>, of: Effect -> seq<T>,
                                            chosen: seq<bool>, i: nat)
    requires |chosen| == |actions| && i < |actions| && !chosen[i]
    ensures multiset(Gather(env, round, actions, of, chosen[i := true]))
         == multiset(Gather(env, round, actions, of, chosen)) + multiset(of(EffectOf(env, actions[i], round)))
    decreases |actions|
  {
    hide EffectOf;
    if i > 0 {
      assert chosen[i := true][1..] == chosen[1..][i - 1 := true];
      GatherOneMore(env, round, actions[1..], of, chosen[1..], i - 1);
    } else {
      assert chosen[0 := true][1..] == chosen[1..];
    }
  }

  lemma {:induction false} GatherNone<T>(env: Env, round: nat, actions: seq<Action>, of: Effect -> seq<T>)
    ensures Gather(env, round, actions, of, Chosen(|actions|, false)) == []
    decreases |actions|
  {
    if actions != [] {
      assert Chosen(|actions|, false)[1..] == Chosen(|actions| - 1, false);
      GatherNone(env, round, actions[1..], of);
    }
  }

  /** One shared list holds what it held at the start and what the settled actions have pushed. */
  ghost predicate Collected<T>(env: Env, round: nat, actions: seq<Action>, of: Effect -> seq<T>, settled: seq<bool>,
                               before: seq<T>, now: seq<T>)
    requires |settled| == |actions|
  {
    multiset(now) == multiset(before) + multiset(Gather(env, round, actions, of, settled))
  }

  /** Settled actions have left their step or a rejection. */
  ghost predicate SlotsInv(env: Env, round: nat, actions: seq<Action>, r: Round)
    requires Fits(r, actions)
  {
    && (forall i | 0 <= i < |actions| && r.phases[i] == Settled ::
          match EffectOf(env, actions[i], round)
          case Rejects(_) => r.rejected.Some?
          case Yields(step, _, _, _) => r.slots[i] == Some(step))
    && (r.rejected.Some? ==> SomeRejects(env, round, actions))
  }

  ghost predicate ListsInv(env: Env, round: nat, actions: seq<Action>, start: Round, r: Round)
    requires Fits(r, actions)
  {
    && Collected(env, round, actions, UsedOf, SettledOnes(r), start.used, r.used)
    && Collected(env, round, actions, DocumentsOf, SettledOnes(r), start.documents, r.documents)
    && Collected(env, round, actions, ArtifactsOf, SettledOnes(r), start.artifacts, r.artifacts)
  }

  /** What every interleaving of a round keeps. */
  ghost predicate RoundInv(env: Env, round: nat, actions: seq<Action>, start: Round, r: Round)
    requires Fits(r, actions)
  {
    SlotsInv(env, round, actions, r) && ListsInv(env, round, actions, start, r)
  }

  lemma StartInv(env: Env, round: nat, actions: seq<Action>, used: seq<UsedTool>, documents: seq<string>,
                 artifacts: seq<string>)
    ensures var r := StartRound(actions, used, documents, artifacts); RoundInv(env, round, actions, r, r)
  {
    hide EffectOf;
    var r := StartRound(actions, used, documents, artifacts);
    assert SettledOnes(r) == Chosen(|actions|, false);
    GatherNone(env, round, actions, UsedOf);
    GatherNone(env, round, actions, DocumentsOf);
    GatherNone(env, round, actions, ArtifactsOf);
  }

  lemma CollectedOneMore<T>(env: Env, round: nat, actions: seq<Action>, of: Effect -> seq<T>, settled: seq<bool>,
                            before: seq<T>, now: seq<T>, i: nat)
    requires |settled| == |actions| && i < |actions| && !settled[i]
    requires Collected(env, round, actions, of, settled, before, now)
    ensures Collected(env, round, actions, of, settled[i := true], before, now + of(EffectOf(env, actions[i], round)))
  {
    hide EffectOf;
    GatherOneMore(env, round, actions, of, settled, i);
  }

  lemma ResumeKeepsSlots(env: Env, round: nat, actions: seq<Action>, r: Round, i: nat)
    requires Fits(r, actions) && SlotsInv(env, round, actions, r)
    ensures SlotsInv(env, round, actions, Resume(env, round, actions, r, i))
  {
    hide EffectOf;
    hide NextPhase;
  }

  /** Resuming an action either settles it, with all it pushes, or touches no shared list. */
  lemma ResumePushes(env: Env, round: nat, actions: seq<Action>, r: Round, i: nat)
    requires Fits(r, actions) && i < |actions| && r.phases[i] != Settled
    ensures var r' := Resume(env, round, actions, r, i);
            var e := EffectOf(env, actions[i], round);
            if r'.phases[i] == Settled then
              && SettledOnes(r') == SettledOnes(r)[i := true]
              && r'.used == r.used + UsedOf(e) && r'.documents == r.documents + DocumentsOf(e)
              && r'.artifacts == r.artifacts + ArtifactsOf(e)
            else
              && SettledOnes(r') == SettledOnes(r)
              && r'.used == r.used && r'.documents == r.documents && r'.artifacts == r.artifacts
  {
    hide EffectOf;
    hide NextPhase;
    assert r.used + [] == r.used && r.documents + [] == r.documents && r.artifacts + [] == r.artifacts;
  }

  lemma ResumeKeepsInv(env: Env, round: nat, actions: seq<Action>, start: Round, r: Round, i: nat)
    requires Fits(r, actions) && RoundInv(env, round, actions, start, r)
    ensures RoundInv(env, round, actions, start, Resume(env, round, actions, r, i))
  {
    hide EffectOf;
    hide NextPhase;
    hide SlotsInv;
    hide Gather;
    hide Collected;
    ResumeKeepsSlots(env, round, actions, r, i);
    if i < |actions| && r.phases[i] != Settled {
      hide Resume;
      ResumePushes(env, round, actions, r, i);
      CollectedOneMore(env, round, actions, UsedOf, SettledOnes(r), start.used, r.used, i);
      CollectedOneMore(env, round, actions, DocumentsOf, SettledOnes(r), start.documents, r.documents, i);
      CollectedOneMore(env, round, actions, ArtifactsOf, SettledOnes(r), start.artifacts, r.artifacts, i);
    }
  }

  lemma {:induction false} InterleaveKeepsInv(env: Env, round: nat, actions: seq<Action>, start: Round, r: Round,
                                              schedule: seq<nat>)
    requires Fits(r, actions) && RoundInv(env, round, actions, start, r)
    ensures RoundInv(env, round, actions, start, Interleave(env, round, actions, r, schedule))
    decreases |schedule|
  {
    hide RoundInv;
    hide Resume;
    if schedule != [] {
      ResumeKeepsInv(env, round, actions, start, r, schedule[0]);
      InterleaveKeepsInv(env, round, actions, start, Resume(env, round, actions, r, schedule[0]), schedule[1..]);
    }
  }

  /** The steps of a joined round, in the order of its actions. */
  function Collect(r: Round): seq<AgentStep>
    requires forall i | 0 <= i < |r.slots| :: r.slots[i].Some?
  {
    seq(|r.slots|, i requires 0 <= i < |r.slots| => r.slots[i].value)
  }

  /** For every interleaving of a round's actions: it is rejected exactly when some action rejects; otherwise its
      steps come in plan order and each shared list gains exactly what the actions push, in some order. */
  lemma EveryInterleavingAgrees(env: Env, round: nat, actions: seq<Action>, start: Round, schedule: seq<nat>)
    requires start == StartRound(actions, start.used, start.documents, start.artifacts)
    requires Joined(Interleave(env, round, actions, start, schedule))
    ensures var r := Interleave(env, round, actions, start, schedule);
            && (r.rejected.Some? <==> SomeRejects(env, round, actions))
            && (!SomeRejects(env, round, actions) ==>
                 var all := Chosen(|actions|, true);
                 && (forall i | 0 <= i < |r.slots| :: r.slots[i].Some?)
                 && Collect(r) == StepsOf(env, round, actions)
                 && Collected(env, round, actions, UsedOf, all, start.used, r.used)
                 && Collected(env, round, actions, DocumentsOf, all, start.documents, r.documents)
                 && Collected(env, round, actions, ArtifactsOf, all, start.artifacts, r.artifacts))
  {
    hide EffectOf;
    hide Interleave;
    StartInv(env, round, actions, start.used, start.documents, start.artifacts);
    InterleaveKeepsInv(env, round, actions, start, start, schedule);
    var r := Interleave(env, round, actions, start, schedule);
    if !SomeRejects(env, round, actions) {
      forall i | 0 <= i < |actions| ensures EffectOf(env, actions[i], round).Yields? {}
      assert SettledOnes(r) == Chosen(|actions|, true);
      assert Collect(r) == StepsOf(env, round, actions);
    }
  }

  // ---- one entry per resolved tool ----

  function ResolvedCount(env: Env, actions: seq<Action>): nat {
    if actions == [] then 0
    else (if ResolveTool(env, actions[0]).Some? then 1 else 0) + ResolvedCount(env, actions[1..])
  }

  /** A round that is not rejected records one used tool for each action whose tool resolves. */
  lemma {:induction false} OneEntryPerResolvedTool(env: Env, round: nat, actions: seq<Action>)
    requires !SomeRejects(env, round, actions)
    ensures |Gather(env, round, actions, UsedOf, Chosen(|actions|, true))| == ResolvedCount(env, actions)
    decreases |actions|
  {
    hide Explain;
    if actions != [] {
      assert EffectOf(env, actions[0], round).Yields?;
      assert Chosen(|actions|, true)[1..] == Chosen(|actions| - 1, true);
      forall i | 0 <= i < |actions| - 1 ensures EffectOf(env, actions[1..][i], round).Yields? {
        assert actions[1..][i] == actions[i + 1];
      }
      OneEntryPerResolvedTool(env, round, actions[1..]);
    }
  }

  // ---- what one action contributes ----

  /** The tool that is found is the last one of that name, letter case aside. */
  lemma {:induction false} ToolIsLast(env: Env, name: string, n: nat)
    requires n <= |env.tools|
    ensures var tool := ToolByName(env, name, n);
      && (tool.None? <==> forall i | 0 <= i < n :: env.lower(env.tools[i].name) != env.lower(name))
      && (tool.Some? ==> exists i | 0 <= i < n ::
            && tool.value == env.tools[i] && env.lower(env.tools[i].name) == env.lower(name)
            && forall j | i < j < n :: env.lower(env.tools[j].name) != env.lower(name))
  {
    if n > 0 && env.lower(env.tools[n - 1].name) != env.lower(name) { ToolIsLast(env, name, n - 1); }
  }

  /** A tool's answer: its output is the observation and what is recorded of the tool, its arguments replace the
      planned ones, and its documents and artifacts are pushed, each as far as it can be parsed. */
  lemma AnswerIsRecorded(env: Env, action: Action, round: nat, tool: Tool,
                         output: string, args: string, artifact: string, documents: string)
    requires action.tool != "_Exception" && FindTool(env, action.tool) == Some(tool)
    requires env.call(tool, action, round)
          == Observed(output + TOOL_ARGS_PREFIX + args + ARTIFACTS_PREFIX + artifact
                      + SOURCE_DOCUMENTS_PREFIX + documents)
    requires var withArgs := output + TOOL_ARGS_PREFIX + args;
      var withArtifact := withArgs + ARTIFACTS_PREFIX + artifact;
      && StartsNoneBefore(output, TOOL_ARGS_PREFIX) && Absent(args, TOOL_ARGS_PREFIX)
      && StartsNoneBefore(withArgs, ARTIFACTS_PREFIX) && Absent(artifact, ARTIFACTS_PREFIX)
      && StartsNoneBefore(withArtifact, SOURCE_DOCUMENTS_PREFIX) && Absent(documents, SOURCE_DOCUMENTS_PREFIX)
    ensures var input := if env.parse(args).Some? then env.parse(args).value else action.toolInput;
      EffectOf(env, action, round)
      == Yields(AgentStep(action, output), [UsedTool(tool.name, input, output, None)],
                Listed(env.parse(documents)), Listed(env.parse(artifact)))
  {
    hide Explain;
    hide FindTool;
    hide StartsNoneBefore;
    hide Absent;
    ExplainsJoined(env.parse, output, args, artifact, documents);
  }

  /** A tool that fails is recorded with its message and no output; a complaint about the input that is not thrown is
      recorded so, too, and answered by the handler; an unknown tool is not recorded at all. */
  lemma FailuresAreRecorded(env: Env, action: Action, round: nat)
    requires action.tool != "_Exception"
    ensures var tool, effect := FindTool(env, action.tool), EffectOf(env, action, round);
      if tool.None? then effect.Yields? && effect.used == [] && effect.step.action == action
      else
        match env.call(tool.value, action, round)
        case Observed(_) => effect.Yields?
        case Failed(message) =>
          effect == Yields(AgentStep(action, message),
                           [UsedTool(tool.value.name, action.toolInput, "", Some(message))], [], [])
        case BadInput(message) =>
          if env.onParsingError.None? then effect == Rejects(message)
          else effect == Yields(AgentStep(action, env.onParsingError.value(message)),
                                [UsedTool(tool.value.name, action.toolInput, "", Some(message))], [], [])
  {
    hide Explain;
    hide FindTool;
  }
}
