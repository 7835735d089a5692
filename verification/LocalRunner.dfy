/** The SDK's own interpreter: it compiles a workflow to a local graph and runs it without a store.
    As in the engine, `patience` bounds the iterations observed; it excludes no run. */
module LocalRunner {
  import opened Types
  import opened Workflows

  // ----- user functions

  datatype Choice = Picked(state: string) | Undecided(message: string)

  /** The handlers and choice functions of a workflow, by state; the first argument is the number of
      user functions called before. */
  datatype Fns = Fns(
    task: (nat, string, Payload) -> Outcome,
    choice: (nat, string, Payload) -> Choice)

  datatype LocalCall = LocalCall(state: string, input: Payload)

  // ----- the local graph

  datatype LocalNode = LocalNode(name: string, task: TaskDef, next: string, catch: string, retry: Option<RetryPolicy>)
  datatype LocalGraph = LocalGraph(entry: string, nodes: map<string, LocalNode>)

  function LocalNodeFor(wf: Workflow, step: Step): LocalNode
    requires step.name in wf.tasks
  {
    var td := wf.tasks[step.name];
    LocalNode(step.name, td, step.next,
              if step.catch != "" then step.catch else td.catch,
              if step.retry.Some? then step.retry else td.retry)
  }

  function LocalNodesOf(wf: Workflow, steps: seq<Step>): map<string, LocalNode>
    requires Registered(wf, steps)
  {
    if steps == [] then map[]
    else
      var last := steps[|steps| - 1];
      LocalNodesOf(wf, steps[..|steps| - 1])[last.name := LocalNodeFor(wf, last)]
  }

  function LocalGraphOf(wf: Workflow): LocalGraph
    requires wf.steps != [] && Registered(wf, wf.steps)
  {
    LocalGraph(wf.steps[0].name, LocalNodesOf(wf, wf.steps))
  }

  datatype LocalBuild = LocalBuilt(graph: LocalGraph) | NoSteps | UnknownStep(name: string)

  method BuildLocalGraph(wf: Workflow) returns (r: LocalBuild)
    ensures r.NoSteps? <==> wf.steps == []
    ensures r.LocalBuilt? <==> wf.steps != [] && Registered(wf, wf.steps)
    ensures r.LocalBuilt? ==> r.graph == LocalGraphOf(wf)
    ensures r.UnknownStep? ==> r.name !in wf.tasks
  {
    if |wf.steps| == 0 {
      return NoSteps;
    }
    var nodes: map<string, LocalNode> := map[];
    for i := 0 to |wf.steps|
      invariant Registered(wf, wf.steps[..i])
      invariant nodes == LocalNodesOf(wf, wf.steps[..i])
    {
      var step := wf.steps[i];
      if step.name !in wf.tasks {
        return UnknownStep(step.name);
      }
      var td := wf.tasks[step.name];
      var retry := td.retry;
      if step.retry.Some? {
        retry := step.retry;
      }
      var catchState := td.catch;
      if step.catch != "" {
        catchState := step.catch;
      }
      nodes := nodes[step.name := LocalNode(step.name, td, step.next, catchState, retry)];
      assert wf.steps[..i + 1] == wf.steps[..i] + [step];
      assert wf.steps[..i + 1][..i] == wf.steps[..i];
    }
    assert wf.steps[..|wf.steps|] == wf.steps;
    return LocalBuilt(LocalGraph(wf.steps[0].name, nodes));
  }

  /** The local graph is the compiled graph without its terminal flags. */
  function Strip(node: Node): LocalNode {
    LocalNode(node.name, node.task, node.next, node.catch, node.retry)
  }

  lemma {:induction false} LocalNodesAreStripped(wf: Workflow, steps: seq<Step>)
    requires Registered(wf, steps)
    ensures LocalNodesOf(wf, steps).Keys == NodesOf(wf, steps).Keys
    ensures forall n :: n in NodesOf(wf, steps) ==> LocalNodesOf(wf, steps)[n] == Strip(NodesOf(wf, steps)[n])
  {
    if steps != [] {
      var front := steps[..|steps| - 1];
      assert forall j :: 0 <= j < |front| ==> front[j] == steps[j];
      LocalNodesAreStripped(wf, front);
    }
  }

  // ----- runWithRetry

  function LocalMax(retry: Option<RetryPolicy>): (n: nat)
    ensures n >= 1
  {
    if retry.Some? && retry.value.maxAttempts > 0 then retry.value.maxAttempts else 1
  }

  /** The retry loop with this many attempts left. */
  function LocalAttempts(fns: Fns, state: string, input: Payload, calls: seq<LocalCall>, left: nat): (seq<LocalCall>, Outcome)
    requires left >= 1
    decreases left
  {
    var calls' := calls + [LocalCall(state, input)];
    var answer := fns.task(|calls|, state, input);
    if answer.Ok? || left == 1 then (calls', answer)
    else LocalAttempts(fns, state, input, calls', left - 1)
  }

  method RunWithRetry(fns: Fns, state: string, input: Payload, before: seq<LocalCall>, retry: Option<RetryPolicy>)
    returns (calls: seq<LocalCall>, r: Outcome)
    ensures (calls, r) == LocalAttempts(fns, state, input, before, LocalMax(retry))
  {
    var maxAttempts := 1;
    if retry.Some? && retry.value.maxAttempts > 0 {
      maxAttempts := retry.value.maxAttempts;
    }
    calls := before;
    r := Err("");
    var attempt := 0;
    while attempt < maxAttempts
      invariant 0 <= attempt <= maxAttempts
      invariant attempt < maxAttempts ==>
                  LocalAttempts(fns, state, input, calls, maxAttempts - attempt) == LocalAttempts(fns, state, input, before, maxAttempts)
      invariant attempt == maxAttempts ==> (calls, r) == LocalAttempts(fns, state, input, before, maxAttempts)
    {
      var answer := fns.task(|calls|, state, input);
      calls := calls + [LocalCall(state, input)];
      if answer.Ok? {
        return calls, answer;
      }
      r := answer;
      attempt := attempt + 1;
    }
  }

  // ----- runLocalState

  function RunLocalState(fns: Fns, node: LocalNode, input: Payload, calls: seq<LocalCall>): (seq<LocalCall>, Outcome) {
    match node.task.kind
    case WaitKind => (calls, Ok(input))
    case ChoiceKind =>
      (calls + [LocalCall(node.name, input)],
       match fns.choice(|calls|, node.name, input)
       case Picked(next) => Ok(input[CHOICE_KEY := Text(next)])
       case Undecided(message) => Err(message))
    case _ =>
      if !node.task.hasFn then (calls, Err("state uses InvokeService which is not supported in RunLocal"))
      else LocalAttempts(fns, node.name, input, calls, LocalMax(node.retry))
  }

  // ----- runLocalGraph

  /** The next state's name; None when a choice state's output has no string under `__choice__`. */
  function NextLocalNode(node: LocalNode, output: Payload): Option<string> {
    if node.task.kind == ChoiceKind then
      if CHOICE_KEY in output && output[CHOICE_KEY].Text? then Some(output[CHOICE_KEY].s) else None
    else Some(node.next)
  }

  datatype LocalResult = LocalOk | StateFailed(message: string) | Lost(state: string) | OutOfPatience

  datatype LocalRun = LocalRun(calls: seq<LocalCall>, path: seq<string>, result: LocalResult)

  /** What the loop does with a state's answer: stop, or go on at a named state with an input. */
  datatype LocalTurn = LocalStop(result: LocalResult) | LocalGoOn(next: string, input: Payload)

  /** An empty successor ends the run as a sentinel does; a failure goes on at the catch state itself. */
  function LocalTurnAfter(g: LocalGraph, node: LocalNode, input: Payload, answer: Outcome): LocalTurn {
    match answer
    case Err(message) =>
      if node.catch == "" then LocalStop(StateFailed(message)) else LocalGoOn(node.catch, MergeErrorKey(input, message))
    case Ok(output) =>
      match NextLocalNode(node, output)
      case None => LocalStop(Lost(node.name))
      case Some(next) =>
        if next == "" || IsSentinel(next) then LocalStop(LocalOk)
        else if next !in g.nodes then LocalStop(Lost(next))
        else LocalGoOn(next, output)
  }

  /** A failure with a catch goes on at the catch state, which gets the failing state's input with the message
      under `_error` and nothing else changed. */
  lemma CaughtInput(g: LocalGraph, node: LocalNode, input: Payload, message: string)
    requires node.catch != ""
    ensures var turn := LocalTurnAfter(g, node, input, Err(message));
      && turn.LocalGoOn? && turn.next == node.catch
      && ERROR_KEY in turn.input && turn.input[ERROR_KEY] == Text(message)
      && turn.input - {ERROR_KEY} == input - {ERROR_KEY}
  {
  }

  /** At a choice the loop goes by the text under `__choice__`: it ends well on "" and on a sentinel, goes on at
      a state of the graph, and otherwise fails at the named state, or at the choice when there is no text. */
  lemma LocalChoiceGoesWhereItSays(g: LocalGraph, node: LocalNode, input: Payload, output: Payload, target: string)
    requires node.task.kind == ChoiceKind
    ensures var turn := LocalTurnAfter(g, node, input, Ok(output));
      && (CHOICE_KEY in output && output[CHOICE_KEY] == Text(target) ==>
            turn == if target in {"", SUCCEED, FAIL} then LocalStop(LocalOk)
                    else if target in g.nodes then LocalGoOn(target, output) else LocalStop(Lost(target)))
      && (CHOICE_KEY !in output || !output[CHOICE_KEY].Text? ==> turn == LocalStop(Lost(node.name)))
  {
  }

  function RunLocal(fns: Fns, g: LocalGraph, current: string, input: Payload, calls: seq<LocalCall>, patience: nat): LocalRun
    decreases patience
  {
    if patience == 0 then LocalRun(calls, [], OutOfPatience)
    else if current !in g.nodes then LocalRun(calls, [], Lost(current))
    else
      var (calls1, answer) := RunLocalState(fns, g.nodes[current], input, calls);
      match LocalTurnAfter(g, g.nodes[current], input, answer)
      case LocalStop(result) => LocalRun(calls1, [current], result)
      case LocalGoOn(next, given) =>
        var rest := RunLocal(fns, g, next, given, calls1, patience - 1);
        rest.(path := [current] + rest.path)
  }

  /** Without iterations left, or at an unknown state, the run ends where it is. */
  lemma LocalEnds(fns: Fns, g: LocalGraph, current: string, input: Payload, calls: seq<LocalCall>, left: nat)
    ensures left == 0 ==> RunLocal(fns, g, current, input, calls, left) == LocalRun(calls, [], OutOfPatience)
    ensures left > 0 && current !in g.nodes ==> RunLocal(fns, g, current, input, calls, left) == LocalRun(calls, [], Lost(current))
  {
  }

  /** One iteration, with the path walked so far in front. */
  lemma LocalIteration(fns: Fns, g: LocalGraph, current: string, input: Payload, calls: seq<LocalCall>, left: nat, path: seq<string>)
    requires left > 0 && current in g.nodes
    ensures var here := RunLocal(fns, g, current, input, calls, left);
            var (calls1, answer) := RunLocalState(fns, g.nodes[current], input, calls);
            here.(path := path + here.path) ==
            match LocalTurnAfter(g, g.nodes[current], input, answer)
            case LocalStop(result) => LocalRun(calls1, path + [current], result)
            case LocalGoOn(next, given) =>
              var rest := RunLocal(fns, g, next, given, calls1, left - 1);
              rest.(path := path + [current] + rest.path)
  {
    hide RunLocalState, LocalTurnAfter;
    var here := RunLocal(fns, g, current, input, calls, left);
    assert path + ([current] + here.path[1..]) == path + [current] + here.path[1..];
  }

  method RunLocalGraph(fns: Fns, g: LocalGraph, start: Payload, patience: nat) returns (x: LocalRun)
    ensures x == RunLocal(fns, g, g.entry, start, [], patience)
  {
    hide RunLocalState, NextLocalNode, MergeErrorKey, IsSentinel, RunLocal;
    var current, input, calls, path := g.entry, start, [], [];
    var left := patience;
    ghost var goal := RunLocal(fns, g, g.entry, start, [], patience);
    while left > 0
      invariant goal == var rest := RunLocal(fns, g, current, input, calls, left); rest.(path := path + rest.path)
    {
      LocalEnds(fns, g, current, input, calls, left);
      if current !in g.nodes {
        return LocalRun(calls, path, Lost(current));
      }
      LocalIteration(fns, g, current, input, calls, left, path);
      var node := g.nodes[current];
      var answer;
      calls, answer := RunLocalState(fns, node, input, calls).0, RunLocalState(fns, node, input, calls).1;
      path := path + [current];
      left := left - 1;
      if answer.Err? {
        if node.catch != "" {
          input := MergeErrorKey(input, answer.message);
          current := node.catch;
          continue;
        }
        return LocalRun(calls, path, StateFailed(answer.message));
      }
      var next := NextLocalNode(node, answer.output);
      if next.None? {
        return LocalRun(calls, path, Lost(node.name));
      }
      if next.value == "" || IsSentinel(next.value) {
        return LocalRun(calls, path, LocalOk);
      }
      if next.value !in g.nodes {
        return LocalRun(calls, path, Lost(next.value));
      }
      input := answer.output;
      current := next.value;
    }
    LocalEnds(fns, g, current, input, calls, 0);
    return LocalRun(calls, path, OutOfPatience);
  }
}
