/** Workflow definitions, their validation, and the compiled graph the executor drives. */
module Workflows {
  import opened Types

  datatype Kind = TaskKind | ChoiceKind | WaitKind | ParallelKind

  /** `hasFn` says whether the inline handler is set; what the handler does is the executor's environment. */
  datatype TaskDef = TaskDef(
    name: string, kind: Kind, hasFn: bool, serviceTarget: string,
    retry: Option<RetryPolicy>, catch: string, waitNanos: int)

  datatype Step = Step(name: string, next: string, catch: string, retry: Option<RetryPolicy>, isEnd: bool)

  /** `names` keeps every registration in order, also one that overwrote an entry of `tasks`. */
  datatype Workflow = Workflow(
    name: string, image: string, tasks: map<string, TaskDef>, steps: seq<Step>, names: seq<string>)

  // ----- builders

  function New(name: string): Workflow {
    Workflow(name, "", map[], [], [])
  }

  /** The builder API: registrations, the flow and the image; setters of a registered state, found by its
      name; and setters of a step, found by its position in the flow. */
  datatype BuilderCall =
    | AddTask(name: string, hasFn: bool)
    | AddChoice(name: string)
    | AddWait(name: string, nanos: int)
    | AddParallel(name: string, hasFn: bool)
    | SetFlow(steps: seq<Step>)
    | SetImage(image: string)
    | SetService(name: string, target: string)
    | SetTaskRetry(name: string, policy: RetryPolicy)
    | SetTaskCatch(name: string, state: string)
    | SetNext(at: nat, state: string)
    | SetStepCatch(at: nat, state: string)
    | SetStepRetry(at: nat, policy: RetryPolicy)
    | SetEnd(at: nat)

  function Register(wf: Workflow, td: TaskDef): Workflow {
    wf.(tasks := wf.tasks[td.name := td], names := wf.names + [td.name])
  }

  function Flow(wf: Workflow, steps: seq<Step>): Workflow {
    wf.(steps := steps)
  }

  function Blank(name: string, kind: Kind): TaskDef {
    TaskDef(name, kind, false, "", None, "", 0)
  }

  function Configure(wf: Workflow, call: BuilderCall): Workflow {
    match call
    case AddTask(name, hasFn) => Register(wf, Blank(name, TaskKind).(hasFn := hasFn))
    case AddChoice(name) => Register(wf, Blank(name, ChoiceKind))
    case AddWait(name, nanos) => Register(wf, Blank(name, WaitKind).(waitNanos := nanos))
    case AddParallel(name, hasFn) => Register(wf, Blank(name, ParallelKind).(hasFn := hasFn))
    case SetFlow(steps) => Flow(wf, steps)
    case SetImage(image) => wf.(image := image)
    case SetService(name, target) =>
      if name !in wf.tasks then wf else wf.(tasks := wf.tasks[name := wf.tasks[name].(serviceTarget := target)])
    case SetTaskRetry(name, policy) =>
      if name !in wf.tasks then wf else wf.(tasks := wf.tasks[name := wf.tasks[name].(retry := Some(policy))])
    case SetTaskCatch(name, state) =>
      if name !in wf.tasks then wf else wf.(tasks := wf.tasks[name := wf.tasks[name].(catch := state)])
    case SetNext(at, state) =>
      if at >= |wf.steps| then wf else wf.(steps := wf.steps[at := wf.steps[at].(next := state)])
    case SetStepCatch(at, state) =>
      if at >= |wf.steps| then wf else wf.(steps := wf.steps[at := wf.steps[at].(catch := state)])
    case SetStepRetry(at, policy) =>
      if at >= |wf.steps| then wf else wf.(steps := wf.steps[at := wf.steps[at].(retry := Some(policy))])
    case SetEnd(at) =>
      if at >= |wf.steps| then wf else wf.(steps := wf.steps[at := wf.steps[at].(next := SUCCEED, isEnd := true)])
  }

  function Assemble(name: string, calls: seq<BuilderCall>): Workflow {
    if calls == [] then New(name)
    else Configure(Assemble(name, calls[..|calls| - 1]), calls[|calls| - 1])
  }

  /** Tasks are filed under their own names, and the list of names is in step with them. */
  ghost predicate WellBuilt(wf: Workflow) {
    && (forall n :: n in wf.tasks ==> wf.tasks[n].name == n)
    && (forall n :: n in wf.tasks <==> n in wf.names)
  }

  /** Every workflow the builder API can produce is well built. */
  lemma {:induction false} AssembledIsWellBuilt(name: string, calls: seq<BuilderCall>)
    ensures WellBuilt(Assemble(name, calls)) && Assemble(name, calls).name == name
  {
    if calls != [] {
      AssembledIsWellBuilt(name, calls[..|calls| - 1]);
    }
  }

  // ----- the last writer of a setting decides it

  /** What the builders set: of a step, found by position, and of a registered state, found by name. */
  datatype Slot =
    | NextOfStep(at: nat) | CatchOfStep(at: nat) | RetryOfStep(at: nat) | EndOfStep(at: nat)
    | TargetOfTask(name: string) | CatchOfTask(name: string) | RetryOfTask(name: string)

  datatype Setting = Target(name: string) | Policy(retry: Option<RetryPolicy>) | Marker(on: bool)

  predicate OfStep(slot: Slot) {
    slot.NextOfStep? || slot.CatchOfStep? || slot.RetryOfStep? || slot.EndOfStep?
  }

  predicate Present(wf: Workflow, slot: Slot) {
    if OfStep(slot) then slot.at < |wf.steps| else slot.name in wf.tasks
  }

  function Get(wf: Workflow, slot: Slot): Setting
    requires Present(wf, slot)
  {
    match slot
    case NextOfStep(at) => Target(wf.steps[at].next)
    case CatchOfStep(at) => Target(wf.steps[at].catch)
    case RetryOfStep(at) => Policy(wf.steps[at].retry)
    case EndOfStep(at) => Marker(wf.steps[at].isEnd)
    case TargetOfTask(name) => Target(wf.tasks[name].serviceTarget)
    case CatchOfTask(name) => Target(wf.tasks[name].catch)
    case RetryOfTask(name) => Policy(wf.tasks[name].retry)
  }

  /** What each setter writes, and where. */
  function Settings(call: BuilderCall): map<Slot, Setting> {
    match call
    case SetService(name, target) => map[TargetOfTask(name) := Target(target)]
    case SetTaskRetry(name, policy) => map[RetryOfTask(name) := Policy(Some(policy))]
    case SetTaskCatch(name, state) => map[CatchOfTask(name) := Target(state)]
    case SetNext(at, state) => map[NextOfStep(at) := Target(state)]
    case SetStepCatch(at, state) => map[CatchOfStep(at) := Target(state)]
    case SetStepRetry(at, policy) => map[RetryOfStep(at) := Policy(Some(policy))]
    case SetEnd(at) => map[NextOfStep(at) := Target(SUCCEED), EndOfStep(at) := Marker(true)]
    case _ => map[]
  }

  /** A new flow replaces every step, and a registration the state of its name. */
  predicate Replaces(call: BuilderCall, slot: Slot) {
    match call
    case SetFlow(_) => OfStep(slot)
    case AddTask(name, _) => !OfStep(slot) && slot.name == name
    case AddChoice(name) => !OfStep(slot) && slot.name == name
    case AddWait(name, _) => !OfStep(slot) && slot.name == name
    case AddParallel(name, _) => !OfStep(slot) && slot.name == name
    case _ => false
  }

  /** One builder call: it writes its own settings and leaves every other one, unless it replaces them. */
  lemma CallWritesExactly(wf: Workflow, call: BuilderCall, slot: Slot)
    requires Present(wf, slot) && !Replaces(call, slot)
    ensures Present(Configure(wf, call), slot)
    ensures Get(Configure(wf, call), slot) == if slot in Settings(call) then Settings(call)[slot] else Get(wf, slot)
  {
  }

  /** A registration starts from the defaults, with the kind, handler and duration it was given; a flow and an
      image are taken over as they are. */
  lemma CallReplacesExactly(wf: Workflow, call: BuilderCall)
    ensures call.AddTask? || call.AddChoice? || call.AddWait? || call.AddParallel? ==>
              && call.name in Configure(wf, call).tasks
              && var td := Configure(wf, call).tasks[call.name];
                 && td.name == call.name && td.serviceTarget == "" && td.retry.None? && td.catch == ""
                 && (call.AddTask? ==> td.kind == TaskKind && td.hasFn == call.hasFn)
                 && (call.AddParallel? ==> td.kind == ParallelKind && td.hasFn == call.hasFn)
                 && (call.AddChoice? ==> td.kind == ChoiceKind)
                 && (call.AddWait? ==> td.kind == WaitKind && td.waitNanos == call.nanos)
    ensures call.SetFlow? ==> Configure(wf, call).steps == call.steps
    ensures Configure(wf, call).image == if call.SetImage? then call.image else wf.image
  {
  }

  /** The last call that writes a setting decides it, whatever is built afterwards. */
  lemma {:induction false} LastWriterDecides(name: string, before: seq<BuilderCall>, call: BuilderCall, after: seq<BuilderCall>, slot: Slot)
    requires Present(Assemble(name, before), slot) && slot in Settings(call)
    requires forall c :: c in after ==> slot !in Settings(c) && !Replaces(c, slot)
    ensures var wf := Assemble(name, before + [call] + after);
            Present(wf, slot) && Get(wf, slot) == Settings(call)[slot]
    decreases |after|
  {
    hide Configure, Settings, Get;
    var calls := before + [call] + after;
    if after == [] {
      assert calls[..|calls| - 1] == before;
      SettersReplaceNothing(call, slot);
      CallWritesExactly(Assemble(name, before), call, slot);
    } else {
      var front := after[..|after| - 1];
      assert calls[..|calls| - 1] == before + [call] + front;
      assert calls[|calls| - 1] == after[|after| - 1] && after[|after| - 1] in after;
      LastWriterDecides(name, before, call, front, slot);
      CallWritesExactly(Assemble(name, before + [call] + front), after[|after| - 1], slot);
    }
  }

  lemma SettersReplaceNothing(call: BuilderCall, slot: Slot)
    requires slot in Settings(call)
    ensures !Replaces(call, slot)
  {
  }

  // ----- Validate

  datatype ValidationError = NoEntryPoint | DuplicateName | AmbiguousHandler | MissingHandler | UnknownState

  predicate Ambiguous(td: TaskDef) {
    td.kind == TaskKind && td.hasFn && td.serviceTarget != ""
  }

  predicate Unhandled(td: TaskDef) {
    td.kind == TaskKind && !td.hasFn && td.serviceTarget == ""
  }

  predicate HandlersConsistent(wf: Workflow) {
    forall n | n in wf.tasks :: !Ambiguous(wf.tasks[n]) && !Unhandled(wf.tasks[n])
  }

  predicate KnownTarget(wf: Workflow, target: string) {
    target != "" && !IsSentinel(target) ==> target in wf.tasks
  }

  predicate StepTargetsKnown(wf: Workflow, step: Step) {
    KnownTarget(wf, step.next) && KnownTarget(wf, step.catch)
  }

  predicate TargetsKnown(wf: Workflow) {
    forall i | 0 <= i < |wf.steps| :: StepTargetsKnown(wf, wf.steps[i])
  }

  predicate Valid(wf: Workflow) {
    wf.steps != [] && NoDuplicates(wf.names) && HandlersConsistent(wf) && TargetsKnown(wf)
  }

  /** The four rules in order; the first violated one decides the error. Rule 3 walks a Go map, so
      which of its two errors is reported when both kinds of fault exist is not determined. */
  method Validate(wf: Workflow) returns (r: Option<ValidationError>)
    ensures r.None? <==> Valid(wf)
    ensures r == Some(NoEntryPoint) <==> wf.steps == []
    ensures r == Some(DuplicateName) <==> wf.steps != [] && !NoDuplicates(wf.names)
    ensures r == Some(AmbiguousHandler) || r == Some(MissingHandler) <==>
              wf.steps != [] && NoDuplicates(wf.names) && !HandlersConsistent(wf)
    ensures r == Some(AmbiguousHandler) ==> exists n :: n in wf.tasks && Ambiguous(wf.tasks[n])
    ensures r == Some(MissingHandler) ==> exists n :: n in wf.tasks && Unhandled(wf.tasks[n])
    ensures r == Some(UnknownState) <==>
              wf.steps != [] && NoDuplicates(wf.names) && HandlersConsistent(wf) && !TargetsKnown(wf)
  {
    if wf.steps == [] {
      return Some(NoEntryPoint);
    }

    var seen: set<string> := {};
    for i := 0 to |wf.names|
      invariant forall x :: x in seen <==> x in wf.names[..i]
      invariant NoDuplicates(wf.names[..i])
    {
      if wf.names[i] in seen {
        assert exists j :: 0 <= j < i && wf.names[j] == wf.names[i];
        return Some(DuplicateName);
      }
      seen := seen + {wf.names[i]};
      assert wf.names[..i + 1] == wf.names[..i] + [wf.names[i]];
    }
    assert wf.names[..|wf.names|] == wf.names;

    var todo := wf.tasks.Keys;
    while todo != {}
      invariant todo <= wf.tasks.Keys
      invariant forall n :: n in wf.tasks && n !in todo ==> !Ambiguous(wf.tasks[n]) && !Unhandled(wf.tasks[n])
    {
      var n :| n in todo;
      var td := wf.tasks[n];
      if td.kind == TaskKind {
        if td.hasFn && td.serviceTarget != "" {
          assert Ambiguous(wf.tasks[n]);
          return Some(AmbiguousHandler);
        }
        if !td.hasFn && td.serviceTarget == "" {
          assert Unhandled(wf.tasks[n]);
          return Some(MissingHandler);
        }
      }
      todo := todo - {n};
    }

    for i := 0 to |wf.steps|
      invariant forall j :: 0 <= j < i ==> StepTargetsKnown(wf, wf.steps[j])
    {
      var step := wf.steps[i];
      if step.next != "" && !IsSentinel(step.next) && step.next !in wf.tasks {
        assert !StepTargetsKnown(wf, wf.steps[i]);
        return Some(UnknownState);
      }
      if step.catch != "" && !IsSentinel(step.catch) && step.catch !in wf.tasks {
        assert !StepTargetsKnown(wf, wf.steps[i]);
        return Some(UnknownState);
      }
    }
    return None;
  }

  // ----- the compiled graph

  datatype Node = Node(
    name: string, task: TaskDef, next: string, catch: string, retry: Option<RetryPolicy>, terminal: bool)

  datatype Graph = Graph(nodes: map<string, Node>, entry: string)

  /** A step resolves when it names a registered task and says where to go. */
  predicate Resolves(wf: Workflow, step: Step) {
    step.name in wf.tasks && (step.next != "" || step.isEnd)
  }

  predicate Buildable(wf: Workflow) {
    Valid(wf) && forall i | 0 <= i < |wf.steps| :: Resolves(wf, wf.steps[i])
  }

  /** The node a step compiles to. */
  function NodeFor(wf: Workflow, step: Step): Node
    requires step.name in wf.tasks
  {
    var td := wf.tasks[step.name];
    Node(
      step.name, td, step.next,
      if step.catch == "" then td.catch else step.catch,
      if step.retry.None? then td.retry else step.retry,
      IsSentinel(step.next))
  }

  predicate Registered(wf: Workflow, steps: seq<Step>) {
    forall i | 0 <= i < |steps| :: steps[i].name in wf.tasks
  }

  function NodesOf(wf: Workflow, steps: seq<Step>): map<string, Node>
    requires Registered(wf, steps)
  {
    if steps == [] then map[]
    else
      var last := steps[|steps| - 1];
      NodesOf(wf, steps[..|steps| - 1])[last.name := NodeFor(wf, last)]
  }

  function GraphOf(wf: Workflow): Graph
    requires Buildable(wf)
  {
    Graph(NodesOf(wf, wf.steps), wf.steps[0].name)
  }

  predicate HasStep(steps: seq<Step>, name: string) {
    exists i | 0 <= i < |steps| :: steps[i].name == name
  }

  /** The index of the last step of a name. */
  function LastStep(steps: seq<Step>, name: string): (i: nat)
    requires HasStep(steps, name)
    ensures i < |steps| && steps[i].name == name
    ensures forall j :: i < j < |steps| ==> steps[j].name != name
  {
    if steps[|steps| - 1].name == name then |steps| - 1 else
      var front := steps[..|steps| - 1];
      assert forall j :: 0 <= j < |front| ==> front[j] == steps[j];
      LastStep(front, name)
  }

  /** A name is a node exactly when it has a step, and its node comes from the last step of that name. */
  lemma {:induction false} NodesOfLastStep(wf: Workflow, steps: seq<Step>, name: string)
    requires Registered(wf, steps)
    ensures name in NodesOf(wf, steps) <==> HasStep(steps, name)
    ensures name in NodesOf(wf, steps) ==> NodesOf(wf, steps)[name] == NodeFor(wf, steps[LastStep(steps, name)])
  {
    if steps != [] {
      var front := steps[..|steps| - 1];
      assert forall j :: 0 <= j < |front| ==> front[j] == steps[j];
      NodesOfLastStep(wf, front, name);
    }
  }

  predicate WellNamed(g: Graph) {
    forall n :: n in g.nodes ==> g.nodes[n].name == n
  }

  lemma BuiltGraphIsWellNamed(wf: Workflow)
    requires Buildable(wf)
    ensures WellNamed(GraphOf(wf)) && GraphOf(wf).entry in GraphOf(wf).nodes
  {
    forall n | n in GraphOf(wf).nodes ensures GraphOf(wf).nodes[n].name == n {
      NodesOfLastStep(wf, wf.steps, n);
    }
    NodesOfLastStep(wf, wf.steps, wf.steps[0].name);
  }

  /** In a buildable workflow every task state has exactly one of an inline handler and a service target. */
  lemma TaskStatesHaveOneHandler(wf: Workflow, n: string)
    requires Buildable(wf) && n in GraphOf(wf).nodes && GraphOf(wf).nodes[n].task.kind == TaskKind
    ensures GraphOf(wf).nodes[n].task.hasFn <==> GraphOf(wf).nodes[n].task.serviceTarget == ""
  {
    NodesOfLastStep(wf, wf.steps, n);
  }

  datatype BuildResult =
    | Built(graph: Graph)
    | Invalid(error: ValidationError)
    | UnknownTask(step: string)
    | NoSuccessor(step: string)

  lemma NodesOfNext(wf: Workflow, i: nat)
    requires i < |wf.steps| && Registered(wf, wf.steps[..i + 1])
    ensures Registered(wf, wf.steps[..i])
    ensures NodesOf(wf, wf.steps[..i + 1]) == NodesOf(wf, wf.steps[..i])[wf.steps[i].name := NodeFor(wf, wf.steps[i])]
  {
    assert forall j :: 0 <= j < i ==> wf.steps[..i + 1][j] == wf.steps[j];
    assert wf.steps[..i + 1][..i] == wf.steps[..i];
  }

  lemma NoNodes(wf: Workflow)
    ensures NodesOf(wf, []) == map[]
  {
  }

  /** Step-level catch and retry override task-level ones; a sentinel successor makes the node terminal. */
  method CompileStep(wf: Workflow, step: Step) returns (node: Node)
    requires step.name in wf.tasks
    ensures node == NodeFor(wf, step)
  {
    var td := wf.tasks[step.name];
    var catchState := step.catch;
    if catchState == "" {
      catchState := td.catch;
    }
    var retry := step.retry;
    if retry.None? {
      retry := td.retry;
    }
    var terminal := step.next == SUCCEED || step.next == FAIL;
    return Node(step.name, td, step.next, catchState, retry, terminal);
  }

  ghost predicate FirstUnresolved(wf: Workflow, i: int) {
    && 0 <= i < |wf.steps| && !Resolves(wf, wf.steps[i])
    && forall j :: 0 <= j < i ==> Resolves(wf, wf.steps[j])
  }

  method Build(wf: Workflow) returns (r: BuildResult)
    ensures r.Built? <==> Buildable(wf)
    ensures r.Built? ==> r.graph == GraphOf(wf)
    ensures r.Invalid? <==> !Valid(wf)
    ensures r.UnknownTask? || r.NoSuccessor? ==>
              exists i :: FirstUnresolved(wf, i) && wf.steps[i].name == r.step
    ensures r.UnknownTask? ==> r.step !in wf.tasks
    ensures r.NoSuccessor? ==> r.step in wf.tasks
  {
    hide NodeFor, Valid, IsSentinel, NodesOf;
    NoNodes(wf);
    var v := Validate(wf);
    if v.Some? {
      return Invalid(v.value);
    }
    var nodes: map<string, Node> := map[];
    var entry := "";
    for i := 0 to |wf.steps|
      invariant forall j :: 0 <= j < i ==> Resolves(wf, wf.steps[j])
      invariant nodes == NodesOf(wf, wf.steps[..i])
      invariant i > 0 ==> entry == wf.steps[0].name
    {
      var step := wf.steps[i];
      if step.name !in wf.tasks {
        assert FirstUnresolved(wf, i);
        return UnknownTask(step.name);
      }
      if step.next == "" && !step.isEnd {
        assert FirstUnresolved(wf, i);
        return NoSuccessor(step.name);
      }
      NodesOfNext(wf, i);
      var node := CompileStep(wf, step);
      nodes := nodes[step.name := node];
      if i == 0 {
        entry := step.name;
      }
    }
    assert wf.steps[..|wf.steps|] == wf.steps;
    return Built(Graph(nodes, entry));
  }

  // ----- navigation

  function Find(g: Graph, name: string): Option<Node> {
    if name in g.nodes then Some(g.nodes[name]) else None
  }

  function EntryNode(g: Graph): Option<Node> {
    Find(g, g.entry)
  }

  datatype Hop = Halt | Goto(node: Node) | UnknownChoice(key: string) | MissingNext(target: string)

  function Next(g: Graph, node: Node, key: string): Hop {
    if node.terminal then Halt
    else if node.task.kind == ChoiceKind then
      if key in g.nodes then Goto(g.nodes[key]) else UnknownChoice(key)
    else
      if node.next in g.nodes then Goto(g.nodes[node.next]) else MissingNext(node.next)
  }

  /** The key a choice state's output names; anything that is not a string counts as "". */
  function ChoiceKey(node: Node, output: Payload): string {
    if node.task.kind == ChoiceKind && CHOICE_KEY in output && output[CHOICE_KEY].Text?
    then output[CHOICE_KEY].s else ""
  }

  /** Every non-terminal, non-choice node has a successor in the graph. */
  predicate Closed(g: Graph) {
    forall n :: n in g.nodes && !g.nodes[n].terminal && g.nodes[n].task.kind != ChoiceKind ==> g.nodes[n].next in g.nodes
  }

  function CatchOf(g: Graph, node: Node): Option<Node> {
    if node.catch == "" || node.catch !in g.nodes then None else Some(g.nodes[node.catch])
  }

  /** No catch can follow this node: it names none in the graph, or it is a wait, which cannot fail. */
  predicate EndsChain(g: Graph, node: Node) {
    node.task.kind == WaitKind || CatchOf(g, node).None?
  }

  /** No catch can ever be taken. */
  predicate CatchFree(g: Graph) {
    forall n :: n in g.nodes ==> EndsChain(g, g.nodes[n])
  }
}
