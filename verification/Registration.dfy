/** The wire form a workflow is registered in, and the graph the control plane compiles from it. */
module Registration {
  import opened Types
  import opened Workflows

  const NANOS := 1_000_000_000

  datatype ProtoState = ProtoState(name: string, kind: string, serviceTarget: string, waitSeconds: int, catchState: string)
  datatype ProtoStep = ProtoStep(name: string, next: string, catch: string, isEnd: bool)
  datatype ProtoGraph = ProtoGraph(name: string, states: seq<ProtoState>, steps: seq<ProtoStep>, image: string)

  // ----- to the wire

  /** Whole seconds of a duration, truncated toward zero. */
  function WholeSeconds(nanos: int): int {
    if nanos >= 0 then nanos / NANOS else -((-nanos) / NANOS)
  }

  /** A second is a billion nanoseconds, and what exceeds whole seconds is dropped on either side of zero. */
  lemma SecondsOfNanos(seconds: int, rest: int)
    requires seconds >= 0 && 0 <= rest < 1_000_000_000
    ensures WholeSeconds(seconds * 1_000_000_000 + rest) == seconds
    ensures WholeSeconds(-(seconds * 1_000_000_000 + rest)) == -seconds
  {
  }

  /** Whole seconds survive exactly when nothing is dropped. */
  lemma WholeSecondsExactly(nanos: int)
    ensures WholeSeconds(nanos) * NANOS == nanos <==> nanos % NANOS == 0
  {
    var size := if nanos >= 0 then nanos else -nanos;
    SecondsOfNanos(size / NANOS, size % NANOS);
    assert size % NANOS == 0 <==> nanos % NANOS == 0 by {
      if nanos < 0 { NegativeMultiples(nanos); }
    }
  }

  lemma NegativeMultiples(nanos: int)
    ensures (-nanos) % NANOS == 0 <==> nanos % NANOS == 0
  {
    if nanos % NANOS == 0 {
      assert -nanos == (-(nanos / NANOS)) * NANOS;
    }
    if (-nanos) % NANOS == 0 {
      assert nanos == (-((-nanos) / NANOS)) * NANOS;
    }
  }

  function KindName(kind: Kind): string {
    match kind
    case ChoiceKind => "choice"
    case WaitKind => "wait"
    case ParallelKind => "parallel"
    case TaskKind => "task"
  }

  function StateOf(td: TaskDef): ProtoState {
    ProtoState(td.name, KindName(td.kind), td.serviceTarget,
               if td.kind == WaitKind then WholeSeconds(td.waitNanos) else 0, td.catch)
  }

  /** One state per step that names a registered task. */
  function StatesOf(wf: Workflow, steps: seq<Step>): seq<ProtoState> {
    if steps == [] then []
    else
      var front, last := StatesOf(wf, steps[..|steps| - 1]), steps[|steps| - 1];
      if last.name in wf.tasks then front + [StateOf(wf.tasks[last.name])] else front
  }

  function StepOf(step: Step): ProtoStep {
    ProtoStep(step.name, step.next, step.catch, step.isEnd)
  }

  function StepsOf(steps: seq<Step>): (r: seq<ProtoStep>)
    ensures |r| == |steps| && forall i :: 0 <= i < |steps| ==> r[i] == StepOf(steps[i])
  {
    seq(|steps|, i requires 0 <= i < |steps| => StepOf(steps[i]))
  }

  function ToProto(wf: Workflow): ProtoGraph {
    ProtoGraph(wf.name, StatesOf(wf, wf.steps), StepsOf(wf.steps), wf.image)
  }

  method ToRegister(wf: Workflow) returns (p: ProtoGraph)
    ensures p == ToProto(wf)
  {
    var states: seq<ProtoState> := [];
    for i := 0 to |wf.steps|
      invariant states == StatesOf(wf, wf.steps[..i])
    {
      var step := wf.steps[i];
      assert wf.steps[..i + 1][..i] == wf.steps[..i];
      if step.name !in wf.tasks {
        continue;
      }
      var td := wf.tasks[step.name];
      var kind := "task";
      if td.kind == ChoiceKind {
        kind := "choice";
      } else if td.kind == WaitKind {
        kind := "wait";
      } else if td.kind == ParallelKind {
        kind := "parallel";
      }
      var s := ProtoState(td.name, kind, td.serviceTarget, 0, td.catch);
      if td.kind == WaitKind {
        s := s.(waitSeconds := WholeSeconds(td.waitNanos));
      }
      states := states + [s];
    }
    assert wf.steps[..|wf.steps|] == wf.steps;
    var steps: seq<ProtoStep> := [];
    for i := 0 to |wf.steps|
      invariant |steps| == i && forall j :: 0 <= j < i ==> steps[j] == StepOf(wf.steps[j])
    {
      steps := steps + [ProtoStep(wf.steps[i].name, wf.steps[i].next, wf.steps[i].catch, wf.steps[i].isEnd)];
    }
    assert steps == StepsOf(wf.steps);
    return ProtoGraph(wf.name, states, steps, wf.image);
  }

  /** What the wire says of a task: its name, target and catch as they are, its kind by name, and the
      seconds of a wait. */
  predicate Describes(s: ProtoState, td: TaskDef) {
    && s.name == td.name && s.serviceTarget == td.serviceTarget && s.catchState == td.catch
    && (s.kind == "task" <==> td.kind == TaskKind) && (s.kind == "choice" <==> td.kind == ChoiceKind)
    && (s.kind == "wait" <==> td.kind == WaitKind) && (s.kind == "parallel" <==> td.kind == ParallelKind)
    && (td.kind == WaitKind && td.waitNanos >= 0 ==> s.waitSeconds * NANOS <= td.waitNanos < (s.waitSeconds + 1) * NANOS)
    && (td.kind != WaitKind ==> s.waitSeconds == 0)
  }

  /** With every step registered the wire form holds the workflow's name and image, one description per step
      and the steps' own settings, in order. */
  lemma {:induction false} WireDescribes(wf: Workflow, steps: seq<Step>)
    requires Registered(wf, steps)
    ensures |StatesOf(wf, steps)| == |steps|
    ensures forall i :: 0 <= i < |steps| ==> Describes(StatesOf(wf, steps)[i], wf.tasks[steps[i].name])
    ensures ToProto(wf).name == wf.name && ToProto(wf).image == wf.image
  {
    if steps != [] {
      var front := steps[..|steps| - 1];
      assert forall j :: 0 <= j < |front| ==> front[j] == steps[j];
      WireDescribes(wf, front);
      assert Describes(StateOf(wf.tasks[steps[|front|].name]), wf.tasks[steps[|front|].name]);
    }
  }

  // ----- from the wire

  /** Every state that is not a wait becomes a task with a no-op inline handler. */
  function TaskOf(s: ProtoState): TaskDef {
    if s.kind == "wait"
    then TaskDef(s.name, WaitKind, false, s.serviceTarget, None, s.catchState, s.waitSeconds * NANOS)
    else TaskDef(s.name, TaskKind, true, s.serviceTarget, None, s.catchState, 0)
  }

  function RegisterAll(wf: Workflow, states: seq<ProtoState>): Workflow {
    if states == [] then wf
    else Register(RegisterAll(wf, states[..|states| - 1]), TaskOf(states[|states| - 1]))
  }

  function StepFrom(p: ProtoStep): Step {
    Step(p.name, if p.isEnd then SUCCEED else p.next, p.catch, None, p.isEnd)
  }

  function StepsFrom(steps: seq<ProtoStep>): (r: seq<Step>)
    ensures |r| == |steps| && forall i :: 0 <= i < |steps| ==> r[i] == StepFrom(steps[i])
  {
    seq(|steps|, i requires 0 <= i < |steps| => StepFrom(steps[i]))
  }

  function FromProto(p: ProtoGraph): Workflow {
    Flow(RegisterAll(New(p.name), p.states), StepsFrom(p.steps))
  }

  method BuildFromProto(p: ProtoGraph) returns (r: BuildResult)
    ensures r.Built? <==> Buildable(FromProto(p))
    ensures r.Built? ==> r.graph == GraphOf(FromProto(p))
  {
    var wf := New(p.name);
    for i := 0 to |p.states|
      invariant wf == RegisterAll(New(p.name), p.states[..i])
    {
      var s := p.states[i];
      assert p.states[..i + 1][..i] == p.states[..i];
      var td;
      if s.kind == "wait" {
        td := TaskDef(s.name, WaitKind, false, "", None, "", s.waitSeconds * NANOS);
      } else {
        td := TaskDef(s.name, TaskKind, true, "", None, "", 0);
      }
      if s.catchState != "" {
        td := td.(catch := s.catchState);
      }
      if s.serviceTarget != "" {
        td := td.(serviceTarget := s.serviceTarget);
      }
      wf := Register(wf, td);
    }
    assert p.states[..|p.states|] == p.states;
    var steps: seq<Step> := [];
    for i := 0 to |p.steps|
      invariant |steps| == i && forall j :: 0 <= j < i ==> steps[j] == StepFrom(p.steps[j])
    {
      var ps := p.steps[i];
      var sb := Step(ps.name, "", "", None, false);
      if ps.isEnd {
        sb := sb.(next := SUCCEED, isEnd := true);
      } else if ps.next != "" {
        sb := sb.(next := ps.next);
      }
      if ps.catch != "" {
        sb := sb.(catch := ps.catch);
      }
      steps := steps + [sb];
    }
    assert steps == StepsFrom(p.steps);
    wf := Flow(wf, steps);
    r := Build(wf);
  }

  // ----- the round trip

  /** What the control plane's copy of a workflow looks like. */
  function Relayed(wf: Workflow): Workflow {
    FromProto(ToProto(wf))
  }

  function RelayedTask(td: TaskDef): TaskDef {
    TaskOf(StateOf(td))
  }

  function RelayedStep(step: Step): Step {
    StepFrom(StepOf(step))
  }

  /** wf' has registered these steps' tasks of wf, in order, as the wire form carries them. */
  ghost predicate TasksRelayed(wf: Workflow, steps: seq<Step>, wf': Workflow) {
    && |wf'.names| == |steps| && (forall i :: 0 <= i < |steps| ==> wf'.names[i] == steps[i].name)
    && (forall n :: n in wf'.tasks <==> HasStep(steps, n))
    && (forall n :: n in wf'.tasks ==> n in wf.tasks && wf'.tasks[n] == RelayedTask(wf.tasks[n]))
  }

  lemma TasksRelayedNext(wf: Workflow, front: seq<Step>, last: Step, wf': Workflow)
    requires WellBuilt(wf) && last.name in wf.tasks && TasksRelayed(wf, front, wf')
    ensures TasksRelayed(wf, front + [last], Register(wf', RelayedTask(wf.tasks[last.name])))
  {
    assert RelayedTask(wf.tasks[last.name]).name == last.name;
    hide RelayedTask;
    var steps, wf'' := front + [last], Register(wf', RelayedTask(wf.tasks[last.name]));
    assert forall i :: 0 <= i < |front| ==> steps[i] == front[i];
    assert steps[|front|] == last;
    forall n ensures n in wf''.tasks <==> HasStep(steps, n) {
      assert HasStep(steps, n) <==> HasStep(front, n) || n == last.name;
    }
  }

  lemma {:induction false} RelayedTasks(wf: Workflow, steps: seq<Step>)
    requires WellBuilt(wf) && Registered(wf, steps)
    ensures TasksRelayed(wf, steps, RegisterAll(New(wf.name), StatesOf(wf, steps)))
  {
    if steps != [] {
      var front, last := steps[..|steps| - 1], steps[|steps| - 1];
      assert steps == front + [last];
      assert forall j :: 0 <= j < |front| ==> front[j] == steps[j];
      RelayedTasks(wf, front);
      var states := StatesOf(wf, steps);
      hide TasksRelayed;
      assert states[..|states| - 1] == StatesOf(wf, front);
      TasksRelayedNext(wf, front, last, RegisterAll(New(wf.name), StatesOf(wf, front)));
    }
  }

  /** wf' registers exactly the steps' states, in order, and keeps the steps. */
  ghost predicate IsRelay(wf: Workflow, wf': Workflow) {
    && TasksRelayed(wf, wf.steps, wf')
    && |wf'.steps| == |wf.steps| && (forall i :: 0 <= i < |wf.steps| ==> wf'.steps[i] == RelayedStep(wf.steps[i]))
  }

  lemma RelayedIsRelay(wf: Workflow)
    requires WellBuilt(wf) && Buildable(wf)
    ensures IsRelay(wf, Relayed(wf))
  {
    hide RelayedTask, RegisterAll, StatesOf, HasStep, StepFrom, StepOf;
    RelayedTasks(wf, wf.steps);
  }

  /** What the executor reads of a node. */
  datatype Reading = Reading(
    next: string, catch: string, retry: Option<RetryPolicy>, terminal: bool,
    choice: bool, wait: Option<int>, serviceTarget: string)

  function ReadNode(node: Node): Reading {
    Reading(node.next, node.catch, node.retry, node.terminal, node.task.kind == ChoiceKind,
            if node.task.kind == WaitKind then Some(node.task.waitNanos) else None, node.task.serviceTarget)
  }

  ghost predicate SameMeaning(g: Graph, h: Graph) {
    && g.entry == h.entry && g.nodes.Keys == h.nodes.Keys
    && forall n :: n in g.nodes ==> n in h.nodes && ReadNode(g.nodes[n]) == ReadNode(h.nodes[n])
  }

  /** What the wire form can carry of one step. */
  predicate StepCarried(wf: Workflow, step: Step)
    requires step.name in wf.tasks
  {
    var td := wf.tasks[step.name];
    && step.retry.None? && td.retry.None?
    && td.kind != ChoiceKind
    && (td.kind != WaitKind ==> td.serviceTarget == "")
    && (td.kind == WaitKind ==> td.waitNanos % NANOS == 0)
    && (step.isEnd ==> step.next == SUCCEED)
    && (!IsSentinel(step.next) ==> HasStep(wf.steps, step.next))
    && (step.catch != "" && !IsSentinel(step.catch) ==> HasStep(wf.steps, step.catch))
  }

  predicate DistinctSteps(wf: Workflow) {
    forall i, j :: 0 <= i < j < |wf.steps| ==> wf.steps[i].name != wf.steps[j].name
  }

  predicate Carried(wf: Workflow) {
    DistinctSteps(wf) && forall i | 0 <= i < |wf.steps| :: Resolves(wf, wf.steps[i]) && StepCarried(wf, wf.steps[i])
  }

  // ----- a carried workflow can be rebuilt

  lemma CarriedStepIsSound(wf: Workflow, wf': Workflow, i: nat)
    requires IsRelay(wf, wf') && i < |wf.steps| && Resolves(wf, wf.steps[i]) && StepCarried(wf, wf.steps[i])
    ensures StepTargetsKnown(wf', wf'.steps[i]) && Resolves(wf', wf'.steps[i])
  {
    hide RelayedTask;
    assert HasStep(wf.steps, wf.steps[i].name);
    assert wf'.steps[i] == RelayedStep(wf.steps[i]);
  }

  lemma CarriedTaskIsSound(wf: Workflow, wf': Workflow, i: nat)
    requires IsRelay(wf, wf') && i < |wf.steps| && Resolves(wf, wf.steps[i]) && StepCarried(wf, wf.steps[i])
    ensures var n := wf.steps[i].name; n in wf'.tasks && !Ambiguous(wf'.tasks[n]) && !Unhandled(wf'.tasks[n])
  {
    assert HasStep(wf.steps, wf.steps[i].name);
  }

  lemma CarriedIsBuildable(wf: Workflow, wf': Workflow)
    requires Buildable(wf) && Carried(wf) && IsRelay(wf, wf')
    ensures Buildable(wf')
  {
    hide RelayedTask, RelayedStep, StepCarried, Ambiguous, Unhandled, StepTargetsKnown, Resolves;
    forall i | 0 <= i < |wf'.steps| ensures StepTargetsKnown(wf', wf'.steps[i]) && Resolves(wf', wf'.steps[i]) {
      CarriedStepIsSound(wf, wf', i);
    }
    forall n | n in wf'.tasks ensures !Ambiguous(wf'.tasks[n]) && !Unhandled(wf'.tasks[n]) {
      var i :| 0 <= i < |wf.steps| && wf.steps[i].name == n;
      CarriedTaskIsSound(wf, wf', i);
    }
  }

  // ----- and then reads the same

  lemma UniqueLastStep(steps: seq<Step>, i: nat)
    requires i < |steps| && forall j, k :: 0 <= j < k < |steps| ==> steps[j].name != steps[k].name
    ensures HasStep(steps, steps[i].name) && LastStep(steps, steps[i].name) == i
  {
  }

  lemma NodeOfUniqueStep(wf: Workflow, i: nat)
    requires Buildable(wf) && DistinctSteps(wf) && i < |wf.steps|
    ensures var n, g := wf.steps[i].name, GraphOf(wf);
            n in wf.tasks && n in g.nodes && g.nodes[n] == NodeFor(wf, wf.steps[i])
  {
    UniqueLastStep(wf.steps, i);
    NodesOfLastStep(wf, wf.steps, wf.steps[i].name);
  }

  lemma RelayKeepsStepNames(wf: Workflow, wf': Workflow)
    requires IsRelay(wf, wf')
    ensures forall i :: 0 <= i < |wf.steps| ==> wf'.steps[i].name == wf.steps[i].name
    ensures DistinctSteps(wf) ==> DistinctSteps(wf')
    ensures NoDuplicates(wf'.names) <==> DistinctSteps(wf)
  {
    hide RelayedTask;
    forall i, j | 0 <= i < j < |wf.steps| ensures wf'.names[i] != wf'.names[j] <==> wf.steps[i].name != wf.steps[j].name {
    }
  }

  /** One step's node reads the same on both sides exactly when the wire carries the step. */
  lemma SameNodeExactly(wf: Workflow, wf': Workflow, step: Step)
    requires step.name in wf.tasks && step.name in wf'.tasks && wf'.tasks[step.name] == RelayedTask(wf.tasks[step.name])
    requires Resolves(wf, step) && !Ambiguous(wf'.tasks[step.name])
    requires forall n :: n in wf'.tasks <==> HasStep(wf.steps, n)
    requires StepTargetsKnown(wf', RelayedStep(step))
    ensures ReadNode(NodeFor(wf, step)) == ReadNode(NodeFor(wf', RelayedStep(step))) <==> StepCarried(wf, step)
  {
    WholeSecondsExactly(wf.tasks[step.name].waitNanos);
    hide HasStep;
  }

  lemma SameNodeInGraphs(wf: Workflow, wf': Workflow, i: nat)
    requires Buildable(wf) && IsRelay(wf, wf') && Buildable(wf') && DistinctSteps(wf) && i < |wf.steps|
    ensures var n, g, h := wf.steps[i].name, GraphOf(wf), GraphOf(wf');
            && n in g.nodes && n in h.nodes && n in wf.tasks
            && (ReadNode(g.nodes[n]) == ReadNode(h.nodes[n]) <==> StepCarried(wf, wf.steps[i]))
  {
    hide RelayedTask, StepCarried, ReadNode, NodeFor, GraphOf, Ambiguous;
    RelayKeepsStepNames(wf, wf');
    NodeOfUniqueStep(wf, i);
    NodeOfUniqueStep(wf', i);
    assert wf'.steps[i] == RelayedStep(wf.steps[i]);
    SameNodeExactly(wf, wf', wf.steps[i]);
  }

  lemma SameStepsHere(steps: seq<Step>, steps': seq<Step>, n: string)
    requires |steps| == |steps'| && forall i :: 0 <= i < |steps| ==> steps'[i].name == steps[i].name
    ensures HasStep(steps, n) <==> HasStep(steps', n)
  {
    if HasStep(steps, n) {
      var i :| 0 <= i < |steps| && steps[i].name == n;
      assert steps'[i].name == n;
    }
  }

  lemma SameKeys(wf: Workflow, wf': Workflow)
    requires Buildable(wf) && IsRelay(wf, wf') && Buildable(wf')
    ensures GraphOf(wf).entry == GraphOf(wf').entry
    ensures GraphOf(wf).nodes.Keys == GraphOf(wf').nodes.Keys
  {
    hide RelayedTask, RelayedStep;
    RelayKeepsStepNames(wf, wf');
    forall n ensures n in GraphOf(wf).nodes <==> n in GraphOf(wf').nodes {
      NodesOfLastStep(wf, wf.steps, n);
      NodesOfLastStep(wf', wf'.steps, n);
      SameStepsHere(wf.steps, wf'.steps, n);
    }
  }

  lemma NodeHasStep(wf: Workflow, n: string)
    requires Buildable(wf) && n in GraphOf(wf).nodes
    ensures HasStep(wf.steps, n)
  {
    NodesOfLastStep(wf, wf.steps, n);
  }

  lemma RelayPreservesMeaningExactly(wf: Workflow, wf': Workflow)
    requires Buildable(wf) && IsRelay(wf, wf')
    ensures Buildable(wf') && SameMeaning(GraphOf(wf), GraphOf(wf')) <==> Carried(wf)
  {
    hide StepCarried, ReadNode, GraphOf, Buildable, IsRelay;
    if Carried(wf) {
      CarriedIsBuildable(wf, wf');
      SameKeys(wf, wf');
      var g, h := GraphOf(wf), GraphOf(wf');
      forall n | n in g.nodes ensures n in h.nodes && ReadNode(g.nodes[n]) == ReadNode(h.nodes[n]) {
        NodeHasStep(wf, n);
        SameNodeInGraphs(wf, wf', LastStep(wf.steps, n));
      }
    } else if Buildable(wf') && SameMeaning(GraphOf(wf), GraphOf(wf')) {
      NothingLost(wf, wf');
    }
  }

  lemma NothingLost(wf: Workflow, wf': Workflow)
    requires Buildable(wf) && IsRelay(wf, wf') && Buildable(wf')
    ensures SameMeaning(GraphOf(wf), GraphOf(wf')) ==> Carried(wf)
  {
    hide StepCarried, ReadNode, GraphOf, IsRelay;
    RelayKeepsStepNames(wf, wf');
    if SameMeaning(GraphOf(wf), GraphOf(wf')) {
      forall i | 0 <= i < |wf.steps| ensures Resolves(wf, wf.steps[i]) && StepCarried(wf, wf.steps[i]) {
        SameNodeInGraphs(wf, wf', i);
      }
    }
  }

  /** Registering a workflow preserves its meaning exactly when the wire form can carry it: distinct step
      names, and for every step no retry, no choice, no service target outside waits, whole-second waits,
      an end marker only on success, and targets that have steps. */
  lemma RegistrationPreservesMeaningExactly(wf: Workflow)
    requires WellBuilt(wf) && Buildable(wf)
    ensures Buildable(Relayed(wf)) && SameMeaning(GraphOf(wf), GraphOf(Relayed(wf))) <==> Carried(wf)
  {
    hide Relayed, Buildable, IsRelay, SameMeaning, Carried;
    RelayedIsRelay(wf);
    RelayPreservesMeaningExactly(wf, Relayed(wf));
  }
}
