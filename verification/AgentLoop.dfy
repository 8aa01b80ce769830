/** Whole runs of the agent executor: the loop, its bound, and its independence of the interleaving. */
module AgentLoop {
  import opened Wrappers
  import opened Agents

  /** How a run stands; `Running` is a run observed for fewer rounds than it takes. */
  datatype Ending = Running | Finished(values: string) | Direct(observation: string) | Stopped(values: string) | Threw

  datatype Run = Run(
    steps: seq<AgentStep>,
    used: seq<UsedTool>,
    documents: seq<string>,
    artifacts: seq<string>,
    plans: nat,
    ending: Ending)

  const EMPTY_RUN := Run([], [], [], [], 0, Running)

  /** In which order the actions of a round are resumed. */
  type Scheduler = (nat, seq<Action>) -> seq<nat>

  predicate ShouldContinue(env: Env, iterations: nat) {
    env.maxIterations.None? || iterations < env.maxIterations.value
  }

  /** An answer that cannot be parsed becomes an action for the exception tool, unless errors are thrown. */
  function Plan(env: Env, steps: seq<AgentStep>, iterations: nat): PlanResult {
    var answer := env.plan(steps, iterations);
    match answer
    case Unparsable(log) =>
      if env.onParsingError.None? then PlanError(log)
      else Act([Action("_Exception", env.onParsingError.value(log))])
    case _ => answer
  }

  /** After a round: the last step of all may end the run, and an empty list has no last step. */
  function AfterRound(env: Env, s: Run): Run {
    if s.steps == [] then s.(ending := Threw)
    else
      var last := s.steps[|s.steps| - 1];
      var tool := FindTool(env, last.action.tool);
      if tool.Some? && tool.value.returnDirect then s.(ending := Direct(last.observation)) else s
  }

  /** One round under a scheduler. */
  function ConcurrentRound(env: Env, schedule: Scheduler, s: Run, iterations: nat, actions: seq<Action>): Run {
    var start := StartRound(actions, s.used, s.documents, s.artifacts);
    var r := Interleave(env, iterations, actions, start, schedule(iterations, actions));
    if r.rejected.Some? then s.(ending := Threw)
    else if exists i | 0 <= i < |r.slots| :: r.slots[i].None? then s // not joined
    else
      AfterRound(env, s.(steps := s.steps + Collect(r), used := r.used,
                         documents := r.documents, artifacts := r.artifacts))
  }

  /** The same round, one action after the other. */
  function OrderedRound(env: Env, s: Run, iterations: nat, actions: seq<Action>): Run {
    if SomeRejects(env, iterations, actions) then s.(ending := Threw)
    else
      var all := Chosen(|actions|, true);
      AfterRound(env, s.(steps := s.steps + StepsOf(env, iterations, actions),
                         used := s.used + Gather(env, iterations, actions, UsedOf, all),
                         documents := s.documents + Gather(env, iterations, actions, DocumentsOf, all),
                         artifacts := s.artifacts + Gather(env, iterations, actions, ArtifactsOf, all)))
  }

  /** The run from `s` on, observed for at most `fuel` rounds; without a scheduler its rounds are ordered. */
  function Call(env: Env, schedule: Option<Scheduler>, s: Run, iterations: nat, fuel: nat): Run
    decreases fuel
  {
    if s.ending != Running || fuel == 0 then s
    else if !ShouldContinue(env, iterations) then s.(ending := Stopped(env.stopped(s.steps)))
    else
      var planned := s.(plans := s.plans + 1);
      match Plan(env, s.steps, iterations)
      case Finish(values) => planned.(ending := Finished(values))
      case Act(actions) =>
        var next := if schedule.None? then OrderedRound(env, planned, iterations, actions)
                    else ConcurrentRound(env, schedule.value, planned, iterations, actions);
        Call(env, schedule, next, iterations + 1, fuel - 1)
      case _ => planned.(ending := Threw)
  }

  // ---- the loop as the source has it ----

  method RunRound(env: Env, round: nat, actions: seq<Action>, start: Round, schedule: seq<nat>) returns (r: Round)
    requires Agents.Fits(start, actions)
    ensures Agents.Fits(r, actions) && r == Interleave(env, round, actions, start, schedule)
  {
    r := start;
    assert schedule[0..] == schedule;
    for i := 0 to |schedule|
      invariant Agents.Fits(r, actions)
      invariant Interleave(env, round, actions, r, schedule[i..]) == Interleave(env, round, actions, start, schedule)
    {
      assert schedule[i..][0] == schedule[i] && schedule[i..][1..] == schedule[i + 1..];
      r := Resume(env, round, actions, r, schedule[i]);
    }
  }

  /** `_call`, observed for at most `fuel` rounds. */
  method CallLoop(env: Env, schedule: Scheduler, fuel: nat) returns (run: Run)
    ensures run == Call(env, Some(schedule), EMPTY_RUN, 0, fuel)
  {
    hide Interleave;
    run := EMPTY_RUN;
    var iterations, left := 0, fuel;
    while run.ending == Running && left > 0 && ShouldContinue(env, iterations)
      invariant iterations + left == fuel
      invariant Call(env, Some(schedule), run, iterations, left) == Call(env, Some(schedule), EMPTY_RUN, 0, fuel)
      decreases left
    {
      run := run.(plans := run.plans + 1);
      var output := Plan(env, run.steps, iterations);
      match output {
        case Finish(values) =>
          run := run.(ending := Finished(values));
        case Act(actions) =>
          var start := StartRound(actions, run.used, run.documents, run.artifacts);
          var r := RunRound(env, iterations, actions, start, schedule(iterations, actions));
          if r.rejected.Some? {
            run := run.(ending := Threw);
          } else if forall i | 0 <= i < |r.slots| :: r.slots[i].Some? {
            run := AfterRound(env, run.(steps := run.steps + Collect(r), used := r.used,
                                        documents := r.documents, artifacts := r.artifacts));
          }
        case _ =>
          run := run.(ending := Threw);
      }
      iterations := iterations + 1;
      left := left - 1;
    }
    if run.ending == Running && left > 0 {
      run := run.(ending := Stopped(env.stopped(run.steps)));
    }
  }

  // ---- the bound ----

  /** A run makes at most `maxIterations` plan calls, and no more than that many rounds are needed to end it. */
  lemma {:induction false} PlansAreBounded(env: Env, schedule: Option<Scheduler>, s: Run, iterations: nat, fuel: nat)
    requires env.maxIterations.Some? && s.plans <= iterations <= env.maxIterations.value
    ensures Call(env, schedule, s, iterations, fuel).plans <= env.maxIterations.value
    ensures fuel > env.maxIterations.value - iterations ==> Call(env, schedule, s, iterations, fuel).ending != Running
    decreases fuel
  {
    hide ConcurrentRound;
    hide OrderedRound;
    if s.ending == Running && fuel > 0 && ShouldContinue(env, iterations) && Plan(env, s.steps, iterations).Act? {
      var planned := s.(plans := s.plans + 1);
      var actions := Plan(env, s.steps, iterations).actions;
      var next := if schedule.None? then OrderedRound(env, planned, iterations, actions)
                  else ConcurrentRound(env, schedule.value, planned, iterations, actions);
      assert next.plans == planned.plans by {
        if schedule.None? { OrderedRoundPlans(env, planned, iterations, actions); }
        else { ConcurrentRoundPlans(env, schedule.value, planned, iterations, actions); }
      }
      PlansAreBounded(env, schedule, next, iterations + 1, fuel - 1);
    }
  }

  lemma OrderedRoundPlans(env: Env, s: Run, iterations: nat, actions: seq<Action>)
    ensures OrderedRound(env, s, iterations, actions).plans == s.plans
  {
    hide Gather;
  }

  lemma ConcurrentRoundPlans(env: Env, schedule: Scheduler, s: Run, iterations: nat, actions: seq<Action>)
    ensures ConcurrentRound(env, schedule, s, iterations, actions).plans == s.plans
  {
    hide Interleave;
  }

  // ---- the interleavings do not show ----

  /** Every round the scheduler is given gets as far as its joint promise. */
  ghost predicate Joins(env: Env, schedule: Scheduler) {
    forall round: nat, actions: seq<Action>, used: seq<UsedTool>, documents: seq<string>, artifacts: seq<string> ::
      Joined(Interleave(env, round, actions, StartRound(actions, used, documents, artifacts), schedule(round, actions)))
  }

  /** The same but for the order of the entries in the three shared lists. */
  ghost predicate Alike(a: Run, b: Run) {
    && a.steps == b.steps && a.plans == b.plans && a.ending == b.ending
    && multiset(a.used) == multiset(b.used)
    && multiset(a.documents) == multiset(b.documents)
    && multiset(a.artifacts) == multiset(b.artifacts)
  }

  lemma AfterRoundIsAlike(env: Env, a: Run, b: Run)
    requires Alike(a, b)
    ensures Alike(AfterRound(env, a), AfterRound(env, b))
  {
    hide FindTool;
  }

  lemma RoundsAreAlike(env: Env, schedule: Scheduler, a: Run, b: Run, iterations: nat, actions: seq<Action>)
    requires Joins(env, schedule) && Alike(a, b)
    ensures Alike(ConcurrentRound(env, schedule, a, iterations, actions), OrderedRound(env, b, iterations, actions))
  {
    hide Interleave;
    hide EffectOf;
    hide FindTool;
    var start := StartRound(actions, a.used, a.documents, a.artifacts);
    EveryInterleavingAgrees(env, iterations, actions, start, schedule(iterations, actions));
    if !SomeRejects(env, iterations, actions) {
      hide SomeRejects;
      hide AfterRound;
      hide Gather;
      var r := Interleave(env, iterations, actions, start, schedule(iterations, actions));
      var all := Chosen(|actions|, true);
      AfterRoundIsAlike(env,
        a.(steps := a.steps + Collect(r), used := r.used, documents := r.documents, artifacts := r.artifacts),
        b.(steps := b.steps + StepsOf(env, iterations, actions),
           used := b.used + Gather(env, iterations, actions, UsedOf, all),
           documents := b.documents + Gather(env, iterations, actions, DocumentsOf, all),
           artifacts := b.artifacts + Gather(env, iterations, actions, ArtifactsOf, all)));
    }
  }

  lemma {:induction false} CallsAreAlike(env: Env, schedule: Scheduler, a: Run, b: Run, iterations: nat, fuel: nat)
    requires Joins(env, schedule) && Alike(a, b)
    ensures Alike(Call(env, Some(schedule), a, iterations, fuel), Call(env, None, b, iterations, fuel))
    decreases fuel
  {
    hide ConcurrentRound;
    hide OrderedRound;
    hide Joins;
    if a.ending == Running && fuel > 0 && ShouldContinue(env, iterations) && Plan(env, a.steps, iterations).Act? {
      var a1, b1 := a.(plans := a.plans + 1), b.(plans := b.plans + 1);
      var actions := Plan(env, a.steps, iterations).actions;
      RoundsAreAlike(env, schedule, a1, b1, iterations, actions);
      CallsAreAlike(env, schedule, ConcurrentRound(env, schedule, a1, iterations, actions),
                    OrderedRound(env, b1, iterations, actions), iterations + 1, fuel - 1);
    }
  }

  /** However the tool calls of each round interleave, a run takes the same steps in the same order, makes the
      same number of plan calls and ends the same way as one whose calls are made one after the other; the used
      tools, source documents and artifacts are the same up to their order. */
  lemma InterleavingsDoNotShow(env: Env, schedule: Scheduler, fuel: nat)
    requires Joins(env, schedule)
    ensures Alike(Call(env, Some(schedule), EMPTY_RUN, 0, fuel), Call(env, None, EMPTY_RUN, 0, fuel))
  {
    CallsAreAlike(env, schedule, EMPTY_RUN, EMPTY_RUN, 0, fuel);
  }

  // ---- schedulers that join exist: any one that resumes every action three times ----

  function Rank(p: Phase): nat { match p case Announcing => 0 case Calling => 1 case Explaining => 2 case Settled => 3 }

  function Resumptions(schedule: seq<nat>, i: nat): nat
    decreases |schedule|
  {
    if schedule == [] then 0 else (if schedule[0] == i then 1 else 0) + Resumptions(schedule[1..], i)
  }

  lemma {:induction false} ResumedIsAdvanced(env: Env, round: nat, actions: seq<Action>, r: Round, schedule: seq<nat>,
                                             i: nat)
    requires Agents.Fits(r, actions) && i < |actions|
    ensures var r' := Interleave(env, round, actions, r, schedule);
            Rank(r'.phases[i]) >= 3 || Rank(r'.phases[i]) >= Rank(r.phases[i]) + Resumptions(schedule, i)
    decreases |schedule|
  {
    hide EffectOf;
    if schedule != [] {
      var r1 := Resume(env, round, actions, r, schedule[0]);
      assert Rank(r1.phases[i]) >= 3 || Rank(r1.phases[i]) >= Rank(r.phases[i]) + if schedule[0] == i then 1 else 0;
      ResumedIsAdvanced(env, round, actions, r1, schedule[1..], i);
    }
  }

  /** Three resumptions settle an action, so a schedule with three for each joins the round. */
  lemma ThreeResumptionsJoin(env: Env, round: nat, actions: seq<Action>, r: Round, schedule: seq<nat>)
    requires Agents.Fits(r, actions) && forall i: nat | i < |actions| :: Resumptions(schedule, i) >= 3
    ensures Joined(Interleave(env, round, actions, r, schedule))
  {
    hide Interleave;
    forall i: nat | i < |actions| ensures Interleave(env, round, actions, r, schedule).phases[i] == Settled {
      ResumedIsAdvanced(env, round, actions, r, schedule, i);
    }
  }
}
