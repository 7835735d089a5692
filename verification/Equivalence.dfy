/** The engine under the in-process runner and the SDK's local interpreter: where they run the same workflows
    alike, exactly, and where they part. */
module Equivalence {
  import opened Types
  import opened Keys
  import opened Stores
  import opened Workflows
  import opened Engine
  import opened Visits
  import opened Journal
  import opened CatchChains
  import opened Memoisation
  import opened LocalRunner

  /** The handler closure of the in-process runner: choices are encoded into the output, tasks run as they are. */
  function HandlerOf(wf: Workflow, fns: Fns): (nat, string, Payload) -> Outcome {
    (c: nat, state: string, input: Payload) =>
      if state !in wf.tasks then Err("unknown state")
      else if wf.tasks[state].kind == ChoiceKind then
        match fns.choice(c, state, input)
        case Picked(next) => Ok(input[CHOICE_KEY := Text(next)])
        case Undecided(message) => Err(message)
      else fns.task(c, state, input)
  }

  function EnvOf(wf: Workflow, fns: Fns): Env {
    Env(HandlerOf(wf, fns), None)
  }

  // ----- retry loops

  function Bare(calls: seq<Call>): (r: seq<LocalCall>)
    ensures |r| == |calls| && forall i :: 0 <= i < |calls| ==> r[i] == LocalCall(calls[i].state, calls[i].input)
  {
    seq(|calls|, i requires 0 <= i < |calls| => LocalCall(calls[i].state, calls[i].input))
  }

  function Copies(call: LocalCall, k: nat): (r: seq<LocalCall>)
    ensures |r| == k && forall i :: 0 <= i < k ==> r[i] == call
  {
    seq(k, i => call)
  }

  /** `runWithRetry` makes as many calls as the engine's retry loop and returns the same answer. */
  lemma {:induction false} SameRetries(env: Env, fns: Fns, state: string, input: Payload, calls: seq<LocalCall>, left: nat)
    requires left >= 1
    requires forall c: nat :: env.handler(c, state, input) == fns.task(c, state, input)
    ensures var k := Tries(env, |calls|, state, input, left);
            LocalAttempts(fns, state, input, calls, left)
            == (calls + Copies(LocalCall(state, input), k), env.handler(|calls| + k - 1, state, input))
    decreases left
  {
    hide Copies, Tries, LocalAttempts;
    var call := LocalCall(state, input);
    var k := Tries(env, |calls|, state, input, left);
    assert env.handler(|calls|, state, input) == fns.task(|calls|, state, input);
    OneTry(env, fns, state, input, calls, left);
    if env.handler(|calls|, state, input).Ok? || left == 1 {
      OneCopy(calls, call);
    } else {
      SameRetries(env, fns, state, input, calls + [call], left - 1);
      MoreCopies(calls, call, k);
    }
  }

  /** Both loops stop at a success or the last attempt, and otherwise go round again. */
  lemma OneTry(env: Env, fns: Fns, state: string, input: Payload, calls: seq<LocalCall>, left: nat)
    requires left >= 1
    ensures var again := calls + [LocalCall(state, input)];
      && Tries(env, |calls|, state, input, left) ==
         (if left == 1 || env.handler(|calls|, state, input).Ok? then 1 else 1 + Tries(env, |again|, state, input, left - 1))
      && LocalAttempts(fns, state, input, calls, left) ==
         (if left == 1 || fns.task(|calls|, state, input).Ok? then (again, fns.task(|calls|, state, input))
          else LocalAttempts(fns, state, input, again, left - 1))
  {
  }

  lemma OneCopy(calls: seq<LocalCall>, call: LocalCall)
    ensures calls + Copies(call, 1) == calls + [call]
  {
  }

  lemma MoreCopies(calls: seq<LocalCall>, call: LocalCall, k: nat)
    requires k >= 1
    ensures calls + [call] + Copies(call, k - 1) == calls + Copies(call, k)
  {
  }

  lemma SameMaximum(retry: Option<RetryPolicy>)
    ensures LocalMax(retry) == MaxAttempts(retry)
  {
  }

  // ----- one state

  predicate Owned(wf: Workflow, node: Node) {
    node.name in wf.tasks && node.task == wf.tasks[node.name]
  }

  /** A task or parallel state with an inline handler. */
  predicate Inline(wf: Workflow, node: Node) {
    Owned(wf, node) && (node.task.kind == TaskKind || node.task.kind == ParallelKind) && node.task.hasFn
  }

  predicate Chooses(wf: Workflow, node: Node) {
    Owned(wf, node) && node.task.kind == ChoiceKind
  }

  /** The engine's visit and the SDK's call of a state make the same calls and come to the same answer. */
  ghost predicate SameState(wf: Workflow, fns: Fns, exec: string, node: Node, input: Payload, w: World) {
    var (w1, visit) := VisitState(EnvOf(wf, fns), exec, node, input, w);
    var (calls1, answer) := RunLocalState(fns, Strip(node), input, Bare(w.calls));
    Bare(w1.calls) == calls1 && visit == ToVisit(answer)
  }

  /** The work of an inline state makes the calls the SDK makes, to the same answer. */
  lemma InlineLabour(wf: Workflow, fns: Fns, exec: string, node: Node, input: Payload, calls: seq<Call>)
    requires Inline(wf, node)
    ensures var l := LabourOf(EnvOf(wf, fns), exec, node, input, |calls|);
            RunLocalState(fns, Strip(node), input, Bare(calls)) == (Bare(calls + l.calls), l.outcome)
  {
    hide LocalAttempts, RunningRecord, RetryEvents, Tries;
    var env := EnvOf(wf, fns);
    forall c: nat ensures env.handler(c, node.name, input) == fns.task(c, node.name, input) {}
    SameMaximum(node.retry);
    SameRetries(env, fns, node.name, input, Bare(calls), MaxAttempts(node.retry));
    var l := LabourOf(env, exec, node, input, |calls|);
    assert Bare(calls + l.calls) == Bare(calls) + Copies(LocalCall(node.name, input), l.attempt);
  }

  lemma InlineStatesAgree(wf: Workflow, fns: Fns, exec: string, node: Node, input: Payload, w: World)
    requires w.store.Mem? && Inline(wf, node) && !IsCompleted(w, exec, node.name)
    ensures SameState(wf, fns, exec, node, input, w)
  {
    hide VisitState, LabourOf, RunLocalState, Bare, Inline, EnvOf, IsCompleted, FinalRecord, FinalEvent, StateKey;
    VisitOnMemory(EnvOf(wf, fns), exec, node, input, w);
    InlineLabour(wf, fns, exec, node, input, w.calls);
  }

  /** The engine retries a choice and the SDK does not: they agree on a choice state exactly when the first
      call decides or there is only one attempt. */
  lemma ChoicesRetryAlikeExactly(wf: Workflow, fns: Fns, exec: string, node: Node, input: Payload, w: World)
    requires w.store.Mem? && Chooses(wf, node) && !IsCompleted(w, exec, node.name)
    ensures SameState(wf, fns, exec, node, input, w) <==>
            fns.choice(|w.calls|, node.name, input).Picked? || MaxAttempts(node.retry) == 1
  {
    hide VisitState;
    var env := EnvOf(wf, fns);
    VisitOnMemory(env, exec, node, input, w);
    var l := LabourOf(env, exec, node, input, |w.calls|);
    if |l.calls| == 1 {
      assert Bare(w.calls + l.calls) == Bare(w.calls) + [LocalCall(node.name, input)];
    } else {
      assert |Bare(w.calls + l.calls)| != |Bare(w.calls) + [LocalCall(node.name, input)]|;
    }
  }

  // ----- where the two go next

  predicate Agree(r: RunResult, l: LocalResult) {
    match r
    case Finished => l == LocalOk
    case Stopped(Cancelled) => l == OutOfPatience
    case Stopped(HandlerError(message)) => l == StateFailed(message)
    case Stopped(NoNext(_, target)) => l == Lost(target)
    case Stopped(BadChoice(_, key)) => l == Lost(key)
    case _ => false
  }

  /** Both stop, well or with the same failure, or both go on at the same state with the same input. */
  predicate TurnsAgree(t: Turn, l: LocalTurn) {
    match (t, l)
    case (Stop(r), LocalStop(lr)) => Agree(r, lr)
    case (GoOn(node, output), LocalGoOn(next, input)) => node.name == next && output == input
    case _ => false
  }

  predicate Ends(target: string) {
    target == "" || IsSentinel(target)
  }

  predicate At(g: Graph, node: Node) {
    node.name in g.nodes && g.nodes[node.name] == node
  }

  /** The graphs the two sides compile the workflow to. */
  ghost predicate Compiled(wf: Workflow, g: Graph, lg: LocalGraph) {
    Buildable(wf) && g == GraphOf(wf) && lg == LocalGraphOf(wf)
  }

  lemma CompiledNode(wf: Workflow, g: Graph, lg: LocalGraph, n: string)
    requires Compiled(wf, g, lg)
    ensures n in g.nodes <==> n in lg.nodes
    ensures n in g.nodes ==> At(g, g.nodes[n]) && g.nodes[n].name == n && lg.nodes[n] == Strip(g.nodes[n])
    ensures n in g.nodes ==> Owned(wf, g.nodes[n]) && g.nodes[n].terminal == IsSentinel(g.nodes[n].next)
  {
    LocalNodesAreStripped(wf, wf.steps);
    NodesOfLastStep(wf, wf.steps, n);
  }

  /** After an output, the two loops do the same exactly when the node's terminal flag says what its target
      says, the target being what a choice picked and otherwise the successor. So they part on a choice of a
      sentinel or of "", on anything else a terminal choice picks, and on an empty successor. */
  lemma TurnsAgreeExactly(wf: Workflow, g: Graph, lg: LocalGraph, node: Node, input: Payload, output: Payload)
    requires Compiled(wf, g, lg) && At(g, node)
    requires node.task.kind == ChoiceKind ==> CHOICE_KEY in output && output[CHOICE_KEY].Text?
    ensures var target := if node.task.kind == ChoiceKind then output[CHOICE_KEY].s else node.next;
            var (turn, local) := (TurnAfter(g, node, Output(output)), LocalTurnAfter(lg, Strip(node), input, Ok(output)));
      && (TurnsAgree(turn, local) <==> (node.terminal <==> Ends(target)))
      && (turn.GoOn? && local.LocalGoOn? ==> TurnsAgree(turn, local))
  {
    hide Compiled;
    CompiledNode(wf, g, lg, node.name);
    CompiledNode(wf, g, lg, if node.task.kind == ChoiceKind then output[CHOICE_KEY].s else node.next);
  }

  // ----- one iteration of both loops

  /** One iteration: the same calls, and then the same turn. */
  ghost predicate SameIteration(wf: Workflow, fns: Fns, exec: string, g: Graph, lg: LocalGraph, node: Node, input: Payload,
                                w: World, depth: nat) {
    var (w1, r) := ExecuteState(EnvOf(wf, fns), exec, g, node, input, w, depth);
    var (calls1, answer) := RunLocalState(fns, Strip(node), input, Bare(w.calls));
    Bare(w1.calls) == calls1 && TurnsAgree(TurnAfter(g, node, r), LocalTurnAfter(lg, Strip(node), input, answer))
  }

  /** What the user's functions may answer at a choice for the two loops to stay together. */
  predicate ChoiceFits(fns: Fns, node: Node, calls: nat, input: Payload) {
    match fns.choice(calls, node.name, input)
    case Picked(target) => node.terminal <==> Ends(target)
    case Undecided(_) => MaxAttempts(node.retry) == 1
  }

  predicate Fits(fns: Fns, node: Node, calls: seq<LocalCall>, input: Payload) {
    if node.task.kind == ChoiceKind then ChoiceFits(fns, node, |calls|, input)
    else RunLocalState(fns, Strip(node), input, calls).1.Ok? ==> node.next != ""
  }

  lemma ExecutionOf(env: Env, exec: string, g: Graph, node: Node, input: Payload, w: World, depth: nat)
    requires w.store.Mem? && node.catch == ""
    ensures var ((w1, r), (w2, visit)) := (ExecuteState(env, exec, g, node, input, w, depth), VisitState(env, exec, node, input, w));
      && w1 == w2 && w1.store.Mem?
      && match visit
         case Produced(output) => r == Output(output)
         case Faulted(cause) => r == Raised(cause)
         case Broken(_) => false
  {
    hide VisitState;
    VisitOnMemory(env, exec, node, input, w);
  }

  lemma LocalAnswer(wf: Workflow, fns: Fns, node: Node, input: Payload, calls: seq<LocalCall>)
    requires Chooses(wf, node)
    ensures RunLocalState(fns, Strip(node), input, calls) ==
            (calls + [LocalCall(node.name, input)],
             match fns.choice(|calls|, node.name, input)
             case Picked(target) => Ok(input[CHOICE_KEY := Text(target)])
             case Undecided(message) => Err(message))
  {
  }

  /** One iteration of the two loops, at any choice or inline state without a catch, is the same exactly when
      the functions' answers fit. */
  lemma IterationsAgreeExactly(wf: Workflow, fns: Fns, exec: string, g: Graph, lg: LocalGraph, node: Node, input: Payload,
                               w: World, depth: nat)
    requires Compiled(wf, g, lg) && At(g, node) && node.catch == "" && (Inline(wf, node) || Chooses(wf, node))
    requires w.store.Mem? && !IsCompleted(w, exec, node.name)
    ensures SameIteration(wf, fns, exec, g, lg, node, input, w, depth) <==> Fits(fns, node, Bare(w.calls), input)
  {
    hide VisitState, ExecuteState, RunLocalState, Compiled, EnvOf, IsCompleted, Bare, TurnAfter, LocalTurnAfter;
    var calls := Bare(w.calls);
    var (_, answer) := RunLocalState(fns, Strip(node), input, calls);
    CompiledNode(wf, g, lg, node.name);
    ExecutionOf(EnvOf(wf, fns), exec, g, node, input, w, depth);
    if node.task.kind == ChoiceKind {
      ChoicesRetryAlikeExactly(wf, fns, exec, node, input, w);
      LocalAnswer(wf, fns, node, input, calls);
      if answer.Err? { UndecidedPartsByCalls(wf, fns, exec, node, input, w); }
    } else {
      InlineStatesAgree(wf, fns, exec, node, input, w);
    }
    match answer
    case Ok(output) => TurnsAgreeExactly(wf, g, lg, node, input, output);
    case Err(message) => FailuresAgree(g, lg, node, input, message);
  }

  lemma FailuresAgree(g: Graph, lg: LocalGraph, node: Node, input: Payload, message: string)
    requires node.catch == ""
    ensures TurnsAgree(TurnAfter(g, node, Raised(HandlerError(message))), LocalTurnAfter(lg, Strip(node), input, Err(message)))
  {
  }

  lemma UndecidedPartsByCalls(wf: Workflow, fns: Fns, exec: string, node: Node, input: Payload, w: World)
    requires w.store.Mem? && Chooses(wf, node) && !IsCompleted(w, exec, node.name)
    requires fns.choice(|w.calls|, node.name, input).Undecided?
    ensures Bare(VisitState(EnvOf(wf, fns), exec, node, input, w).0.calls) == RunLocalState(fns, Strip(node), input, Bare(w.calls)).0
            <==> MaxAttempts(node.retry) == 1
  {
    hide VisitState;
    VisitOnMemory(EnvOf(wf, fns), exec, node, input, w);
    ChoicesRetryAlikeExactly(wf, fns, exec, node, input, w);
    var l := LabourOf(EnvOf(wf, fns), exec, node, input, |w.calls|);
    assert |Bare(w.calls + l.calls)| == |w.calls| + |l.calls|;
  }

  ghost predicate SameRun(x: Execution, l: LocalRun) {
    Bare(x.world.calls) == l.calls && x.path == l.path && Agree(x.result, l.result)
  }

  /** The same seen from the loops themselves, stopped after one iteration. */
  lemma LoopsAgreeExactly(wf: Workflow, fns: Fns, exec: string, g: Graph, lg: LocalGraph, node: Node, input: Payload,
                          w: World, depth: nat)
    requires Compiled(wf, g, lg) && At(g, node) && node.catch == "" && (Inline(wf, node) || Chooses(wf, node))
    requires w.store.Mem? && !IsCompleted(w, exec, node.name)
    ensures SameRun(RunFrom(EnvOf(wf, fns), exec, g, node, input, w, 1, depth),
                    RunLocal(fns, lg, node.name, input, Bare(w.calls), 1))
            <==> Fits(fns, node, Bare(w.calls), input)
  {
    hide ExecuteState, RunLocalState, Compiled, EnvOf, IsCompleted, Bare, TurnAfter, LocalTurnAfter, Fits;
    IterationsAgreeExactly(wf, fns, exec, g, lg, node, input, w, depth);
    CompiledNode(wf, g, lg, node.name);
    GoingOnIsAgreeing(wf, fns, exec, g, lg, node, input, w, depth);
    OneLocalIteration(fns, lg, node.name, input, Bare(w.calls));
    OneEngineIteration(EnvOf(wf, fns), exec, g, node, input, w, depth);
  }

  lemma OneLocalIteration(fns: Fns, lg: LocalGraph, current: string, input: Payload, calls: seq<LocalCall>)
    requires current in lg.nodes
    ensures var (calls1, answer) := RunLocalState(fns, lg.nodes[current], input, calls);
            var turn := LocalTurnAfter(lg, lg.nodes[current], input, answer);
            RunLocal(fns, lg, current, input, calls, 1)
            == LocalRun(calls1, [current], if turn.LocalStop? then turn.result else OutOfPatience)
  {
    hide RunLocalState, LocalTurnAfter;
  }

  lemma OneEngineIteration(env: Env, exec: string, g: Graph, node: Node, input: Payload, w: World, depth: nat)
    ensures var (w1, r) := ExecuteState(env, exec, g, node, input, w, depth);
            var turn := TurnAfter(g, node, r);
            RunFrom(env, exec, g, node, input, w, 1, depth)
            == Execution(w1, [node.name], if turn.Stop? then turn.result else Stopped(Cancelled))
  {
    hide ExecuteState, TurnAfter;
  }

  /** Two loops that make the same calls and both go on, go on alike; and no turn stops by cancellation. */
  lemma GoingOnIsAgreeing(wf: Workflow, fns: Fns, exec: string, g: Graph, lg: LocalGraph, node: Node, input: Payload,
                          w: World, depth: nat)
    requires Compiled(wf, g, lg) && At(g, node) && node.catch == "" && (Inline(wf, node) || Chooses(wf, node))
    requires w.store.Mem? && !IsCompleted(w, exec, node.name)
    ensures var (w1, r) := ExecuteState(EnvOf(wf, fns), exec, g, node, input, w, depth);
            var (calls1, answer) := RunLocalState(fns, Strip(node), input, Bare(w.calls));
            var (turn, local) := (TurnAfter(g, node, r), LocalTurnAfter(lg, Strip(node), input, answer));
      && (Bare(w1.calls) == calls1 && turn.GoOn? && local.LocalGoOn? ==> TurnsAgree(turn, local))
      && turn != Stop(Stopped(Cancelled)) && local != LocalStop(OutOfPatience)
  {
    hide VisitState, ExecuteState, RunLocalState, Compiled, EnvOf, IsCompleted, Bare;
    var calls := Bare(w.calls);
    var (_, answer) := RunLocalState(fns, Strip(node), input, calls);
    ExecutionOf(EnvOf(wf, fns), exec, g, node, input, w, depth);
    VisitStaysInMemory(EnvOf(wf, fns), exec, node, input, w);
    if node.task.kind == ChoiceKind {
      ChoicesRetryAlikeExactly(wf, fns, exec, node, input, w);
      LocalAnswer(wf, fns, node, input, calls);
      if answer.Err? { UndecidedPartsByCalls(wf, fns, exec, node, input, w); }
    } else {
      InlineStatesAgree(wf, fns, exec, node, input, w);
    }
    if answer.Ok? {
      TurnsAgreeExactly(wf, g, lg, node, input, answer.output);
    }
  }

  // ----- the fragment both interpreters treat alike

  /** No catch, no wait, and a handler and a successor where the state needs them. */
  predicate Simple(node: Node) {
    && node.catch == ""
    && match node.task.kind
       case WaitKind => false
       case ChoiceKind => true
       case _ => node.task.hasFn && node.next != ""
  }

  ghost predicate AlwaysFits(fns: Fns, node: Node) {
    node.task.kind == ChoiceKind ==> forall calls: nat, input :: ChoiceFits(fns, node, calls, input)
  }

  ghost predicate Fragment(wf: Workflow, fns: Fns, g: Graph, lg: LocalGraph) {
    && Compiled(wf, g, lg)
    && forall n :: n in g.nodes ==> Simple(g.nodes[n]) && AlwaysFits(fns, g.nodes[n])
  }

  ghost predicate Elsewhere(w: World, w1: World, exec: string, name: string) {
    && w.store.Mem? && w1.store.Mem?
    && forall n :: n != name ==> MemLookup(w1.store.states, exec, n) == MemLookup(w.store.states, exec, n)
  }

  lemma ExecutionStaysLocal(env: Env, exec: string, g: Graph, node: Node, input: Payload, w: World, depth: nat)
    requires w.store.Mem? && node.catch == ""
    ensures Elsewhere(w, ExecuteState(env, exec, g, node, input, w, depth).0, exec, node.name)
  {
    hide VisitState;
    VisitOnMemory(env, exec, node, input, w);
    StateKeyInjective(exec);
  }

  /** An iteration of both loops in the fragment, on a state that is not completed. */
  lemma Iterate(wf: Workflow, fns: Fns, exec: string, g: Graph, lg: LocalGraph, node: Node, input: Payload, w: World, depth: nat)
    requires Fragment(wf, fns, g, lg) && At(g, node) && w.store.Mem? && !IsCompleted(w, exec, node.name)
    ensures SameIteration(wf, fns, exec, g, lg, node, input, w, depth)
    ensures var (w1, r) := ExecuteState(EnvOf(wf, fns), exec, g, node, input, w, depth);
      && Elsewhere(w, w1, exec, node.name)
      && (r.Output? ==> CompletedWith(w1, exec, node.name, r.output))
      && (TurnAfter(g, node, r).GoOn? ==> r.Output? && At(g, TurnAfter(g, node, r).next))
  {
    hide ExecuteState, SameIteration, Compiled, RunLocalState, ChoiceFits, CompletedWith, IsCompleted, Elsewhere, EnvOf;
    CompiledNode(wf, g, lg, node.name);
    IterationsAgreeExactly(wf, fns, exec, g, lg, node, input, w, depth);
    ExecutionStaysLocal(EnvOf(wf, fns), exec, g, node, input, w, depth);
    OutputIsStored(EnvOf(wf, fns), exec, g, node, input, w, depth);
    var (_, r) := ExecuteState(EnvOf(wf, fns), exec, g, node, input, w, depth);
    var turn := TurnAfter(g, node, r);
    if turn.GoOn? {
      var n :| n in g.nodes && g.nodes[n] == turn.next;
      CompiledNode(wf, g, lg, n);
    }
  }

  /** One iteration of the SDK's loop, as its definition has it. */
  lemma LocalUnfolds(wf: Workflow, fns: Fns, g: Graph, lg: LocalGraph, node: Node, input: Payload, calls: seq<LocalCall>, patience: nat)
    requires Compiled(wf, g, lg) && At(g, node) && patience > 0
    ensures var (calls1, answer) := RunLocalState(fns, Strip(node), input, calls);
            RunLocal(fns, lg, node.name, input, calls, patience) ==
            match LocalTurnAfter(lg, Strip(node), input, answer)
            case LocalStop(result) => LocalRun(calls1, [node.name], result)
            case LocalGoOn(next, given) =>
              var rest := RunLocal(fns, lg, next, given, calls1, patience - 1);
              rest.(path := [node.name] + rest.path)
  {
    hide RunLocalState, LocalTurnAfter, Compiled;
    CompiledNode(wf, g, lg, node.name);
  }

  // ----- whole runs

  /** No state of the path has been completed before it is reached. */
  ghost predicate Unmemoised(x: Execution, w: World, exec: string) {
    NoDuplicates(x.path) && forall n :: n in x.path ==> !IsCompleted(w, exec, n)
  }

  lemma UnmemoisedTail(name: string, rest: Execution, w: World, w1: World, exec: string)
    requires !IsCompleted(w, exec, name) && Elsewhere(w, w1, exec, name) && IsCompleted(w1, exec, name)
    ensures Unmemoised(rest, w1, exec) <==> Unmemoised(rest.(path := [name] + rest.path), w, exec)
  {
    var p := [name] + rest.path;
    forall n | n != name ensures IsCompleted(w1, exec, n) <==> IsCompleted(w, exec, n) {}
    if Unmemoised(rest, w1, exec) {
      assert name !in rest.path;
    } else if Unmemoised(rest.(path := p), w, exec) {
      forall i, j | 0 <= i < j < |rest.path| ensures rest.path[i] != rest.path[j] {
        assert p[i + 1] != p[j + 1];
      }
      forall n | n in rest.path ensures !IsCompleted(w1, exec, n) {
        var i :| 0 <= i < |rest.path| && rest.path[i] == n;
        assert p[0] != p[i + 1];
        assert n in p;
      }
    }
  }

  /** On the fragment, a run that meets no completed state makes the same (state, input) calls in the same
      order in both interpreters, takes the same path, and succeeds or fails alike with the same message. */
  lemma {:induction false} InterpretersAgree(wf: Workflow, fns: Fns, exec: string, g: Graph, lg: LocalGraph, node: Node,
                                             input: Payload, w: World, patience: nat, depth: nat)
    requires Fragment(wf, fns, g, lg) && At(g, node) && w.store.Mem?
    ensures var x := RunFrom(EnvOf(wf, fns), exec, g, node, input, w, patience, depth);
            Unmemoised(x, w, exec) ==> SameRun(x, RunLocal(fns, lg, node.name, input, Bare(w.calls), patience))
    decreases patience
  {
    hide Compiled, Simple, AlwaysFits, ExecuteState, TurnAfter, LocalTurnAfter, IsCompleted, EnvOf, RunLocalState, Bare,
         NoDuplicates, CompletedWith, Elsewhere;
    var x := RunFrom(EnvOf(wf, fns), exec, g, node, input, w, patience, depth);
    if patience > 0 && Unmemoised(x, w, exec) {
      assert x.path[0] == node.name;
      assert node.name in x.path;
      Iterate(wf, fns, exec, g, lg, node, input, w, depth);
      LocalUnfolds(wf, fns, g, lg, node, input, Bare(w.calls), patience);
      var (w1, r) := ExecuteState(EnvOf(wf, fns), exec, g, node, input, w, depth);
      var turn := TurnAfter(g, node, r);
      if turn.GoOn? {
        OutputGoesOn(g, node, r);
        var rest := RunFrom(EnvOf(wf, fns), exec, g, turn.next, turn.output, w1, patience - 1, depth);
        assert x == rest.(path := [node.name] + rest.path);
        NowCompleted(w1, exec, node.name, r.output);
        UnmemoisedTail(node.name, rest, w, w1, exec);
        InterpretersAgree(wf, fns, exec, g, lg, turn.next, turn.output, w1, patience - 1, depth);
      }
    }
  }

  lemma NowCompleted(w: World, exec: string, name: string, output: Payload)
    requires CompletedWith(w, exec, name, output)
    ensures IsCompleted(w, exec, name) && w.store.Mem? && MemLookup(w.store.states, exec, name).value.output == output
  {
  }

  lemma OutputGoesOn(g: Graph, node: Node, r: StateResult)
    requires TurnAfter(g, node, r).GoOn?
    ensures r.Output? && TurnAfter(g, node, r).output == r.output
  {
  }

  // ----- a revisit parts the interpreters

  /** The states completed so far, each leading by its stored output to another of them or to the state the
      loop is at. */
  ghost predicate Trail(g: Graph, exec: string, w: World, seen: set<string>, current: string) {
    && w.store.Mem?
    && (forall n :: IsCompleted(w, exec, n) ==> n in seen)
    && forall n :: n in seen ==> exists m :: Follows(g, exec, w, n, m) && (m in seen || m == current)
  }

  /** Once the loop is back on its trail it runs from the store alone, for ever. */
  lemma {:induction false} RevisitIsSilent(env: Env, exec: string, g: Graph, node: Node, input: Payload, w: World,
                                           patience: nat, depth: nat, seen: set<string>)
    requires WellNamed(g) && At(g, node) && node.name in seen && Trail(g, exec, w, seen, node.name)
    ensures RunFrom(env, exec, g, node, input, w, patience, depth).world == w
    decreases patience
  {
    hide ExecuteState, TurnAfter, Trail, CompletedWith;
    if patience > 0 {
      var next, output := TrailLeadsOn(g, exec, w, seen, node);
      MemoHit(env, exec, g, node, input, w, depth, output);
      RevisitIsSilent(env, exec, g, next, output, w, patience - 1, depth, seen);
    }
  }

  /** From a state of a closed trail the stored output leads to another one. */
  lemma TrailLeadsOn(g: Graph, exec: string, w: World, seen: set<string>, node: Node) returns (next: Node, output: Payload)
    requires WellNamed(g) && At(g, node) && node.name in seen && Trail(g, exec, w, seen, node.name)
    ensures CompletedWith(w, exec, node.name, output) && TurnAfter(g, node, Output(output)) == GoOn(next, output)
    ensures At(g, next) && next.name in seen && Trail(g, exec, w, seen, next.name)
  {
    hide IsCompleted, TurnAfter;
    var m :| Follows(g, exec, w, node.name, m) && m in seen;
    StoredOutput(w, exec, node.name);
    next, output := g.nodes[m], MemLookup(w.store.states, exec, node.name).value.output;
  }

  lemma StoredOutput(w: World, exec: string, state: string)
    requires IsCompleted(w, exec, state)
    ensures w.store.Mem? && MemLookup(w.store.states, exec, state).Some?
    ensures CompletedWith(w, exec, state, MemLookup(w.store.states, exec, state).value.output)
  {
  }

  lemma {:induction false} LocalAttemptsCall(fns: Fns, state: string, input: Payload, calls: seq<LocalCall>, left: nat)
    requires left >= 1
    ensures calls + [LocalCall(state, input)] <= LocalAttempts(fns, state, input, calls, left).0
    decreases left
  {
    if fns.task(|calls|, state, input).Err? && left > 1 {
      LocalAttemptsCall(fns, state, input, calls + [LocalCall(state, input)], left - 1);
    }
  }

  predicate Callable(node: LocalNode) {
    node.task.kind == ChoiceKind || (node.task.kind != WaitKind && node.task.hasFn)
  }

  /** A callable state is called with the input its loop has. */
  lemma LocalStateCalls(fns: Fns, node: LocalNode, input: Payload, calls: seq<LocalCall>)
    ensures calls <= RunLocalState(fns, node, input, calls).0
    ensures Callable(node) ==> calls + [LocalCall(node.name, input)] <= RunLocalState(fns, node, input, calls).0
    ensures !Callable(node) ==> calls == RunLocalState(fns, node, input, calls).0
  {
    hide LocalAttempts;
    LocalAttemptsCall(fns, node.name, input, calls, LocalMax(node.retry));
  }

  lemma {:induction false} LocalCallsGrow(fns: Fns, lg: LocalGraph, current: string, input: Payload, calls: seq<LocalCall>, patience: nat)
    ensures calls <= RunLocal(fns, lg, current, input, calls, patience).calls
    ensures patience > 0 && current in lg.nodes && Callable(lg.nodes[current]) ==>
            calls + [LocalCall(lg.nodes[current].name, input)] <= RunLocal(fns, lg, current, input, calls, patience).calls
    decreases patience
  {
    hide LocalTurnAfter, RunLocalState;
    if patience > 0 && current in lg.nodes {
      var node := lg.nodes[current];
      LocalStateCalls(fns, node, input, calls);
      var (calls1, answer) := RunLocalState(fns, node, input, calls);
      var turn := LocalTurnAfter(lg, node, input, answer);
      if turn.LocalGoOn? {
        LocalCallsGrow(fns, lg, turn.next, turn.input, calls1, patience - 1);
      }
    }
  }

  /** The SDK makes no call for a task state, and fails it, exactly when it has a service target. */
  lemma ServiceStatesAreRefusedExactly(wf: Workflow, fns: Fns, g: Graph, lg: LocalGraph, n: string, input: Payload, calls: seq<LocalCall>)
    requires Compiled(wf, g, lg) && n in lg.nodes && lg.nodes[n].task.kind == TaskKind
    ensures var (calls1, answer) := RunLocalState(fns, lg.nodes[n], input, calls);
      && (calls1 == calls <==> lg.nodes[n].task.serviceTarget != "")
      && (lg.nodes[n].task.serviceTarget != "" ==> answer.Err?)
  {
    hide LocalAttempts;
    CompiledNode(wf, g, lg, n);
    TaskStatesHaveOneHandler(wf, n);
    LocalStateCalls(fns, lg.nodes[n], input, calls);
  }

  lemma FollowsKept(g: Graph, exec: string, w: World, w1: World, name: string, a: string, b: string)
    requires Elsewhere(w, w1, exec, name) && a != name && Follows(g, exec, w, a, b)
    ensures Follows(g, exec, w1, a, b)
  {
    hide TurnAfter;
    assert MemLookup(w1.store.states, exec, a) == MemLookup(w.store.states, exec, a);
  }

  lemma TrailGrows(g: Graph, exec: string, w: World, w1: World, seen: set<string>, node: Node, next: Node, output: Payload)
    requires At(g, node) && At(g, next) && Trail(g, exec, w, seen, node.name) && node.name !in seen
    requires Elsewhere(w, w1, exec, node.name) && CompletedWith(w1, exec, node.name, output)
    requires TurnAfter(g, node, Output(output)) == GoOn(next, output)
    ensures Trail(g, exec, w1, seen + {node.name}, next.name)
  {
    hide TurnAfter;
    assert Follows(g, exec, w1, node.name, next.name);
    forall n | n in seen ensures exists m :: Follows(g, exec, w1, n, m) && (m in seen + {node.name} || m == next.name) {
      var m :| Follows(g, exec, w, n, m) && (m in seen || m == node.name);
      FollowsKept(g, exec, w, w1, node.name, n, m);
    }
    forall n | IsCompleted(w1, exec, n) ensures n in seen + {node.name} {
      assert n != node.name ==> MemLookup(w1.store.states, exec, n) == MemLookup(w.store.states, exec, n);
      assert n != node.name ==> IsCompleted(w, exec, n);
    }
  }

  /** A run that meets a completed state makes fewer calls in the engine, which answers from its store, than in
      the SDK, which calls again. */
  lemma {:induction false} RevisitParts(wf: Workflow, fns: Fns, exec: string, g: Graph, lg: LocalGraph, node: Node,
                                        input: Payload, w: World, patience: nat, depth: nat, seen: set<string>)
    requires Fragment(wf, fns, g, lg) && At(g, node) && Trail(g, exec, w, seen, node.name)
    ensures var x := RunFrom(EnvOf(wf, fns), exec, g, node, input, w, patience, depth);
            !Unmemoised(x, w, exec) ==> |x.world.calls| < |RunLocal(fns, lg, node.name, input, Bare(w.calls), patience).calls|
    decreases patience
  {
    hide Fragment, ExecuteState, TurnAfter, LocalTurnAfter, IsCompleted, EnvOf, RunLocalState, CompletedWith, Elsewhere,
         Follows, Trail, Bare, Unmemoised;
    OnTrail(g, exec, w, seen, node.name);
    if patience == 0 {
      ShortPaths(w, exec, node.name, Execution(w, [], Stopped(Cancelled)));
    } else if node.name in seen {
      GraphIsNamed(wf, fns, g, lg);
      RevisitIsSilent(EnvOf(wf, fns), exec, g, node, input, w, patience, depth, seen);
      LocalCalls(wf, fns, g, lg, node, input, Bare(w.calls), patience);
    } else {
      Iterate(wf, fns, exec, g, lg, node, input, w, depth);
      GraphIsNamed(wf, fns, g, lg);
      LocalUnfolds(wf, fns, g, lg, node, input, Bare(w.calls), patience);
      var (w1, r) := ExecuteState(EnvOf(wf, fns), exec, g, node, input, w, depth);
      var turn := TurnAfter(g, node, r);
      if turn.Stop? {
        ShortPaths(w, exec, node.name, Execution(w1, [node.name], turn.result));
      } else {
        OutputGoesOn(g, node, r);
        var rest := RunFrom(EnvOf(wf, fns), exec, g, turn.next, turn.output, w1, patience - 1, depth);
        NowCompleted(w1, exec, node.name, r.output);
        UnmemoisedTail(node.name, rest, w, w1, exec);
        TrailGrows(g, exec, w, w1, seen, node, turn.next, r.output);
        RevisitParts(wf, fns, exec, g, lg, turn.next, turn.output, w1, patience - 1, depth, seen + {node.name});
      }
    }
  }

  lemma OnTrail(g: Graph, exec: string, w: World, seen: set<string>, current: string)
    requires Trail(g, exec, w, seen, current)
    ensures w.store.Mem? && (current !in seen ==> !IsCompleted(w, exec, current))
  {
  }

  lemma ShortPaths(w: World, exec: string, name: string, x: Execution)
    requires x.path == [] || (x.path == [name] && !IsCompleted(w, exec, name))
    ensures Unmemoised(x, w, exec)
  {
  }

  /** Every state of the fragment is called in the SDK whenever its loop gets there. */
  lemma LocalCalls(wf: Workflow, fns: Fns, g: Graph, lg: LocalGraph, node: Node, input: Payload, calls: seq<LocalCall>, patience: nat)
    requires Fragment(wf, fns, g, lg) && At(g, node) && patience > 0
    ensures |RunLocal(fns, lg, node.name, input, calls, patience).calls| > |calls|
  {
    hide RunLocal, Compiled;
    CompiledNode(wf, g, lg, node.name);
    LocalCallsGrow(fns, lg, node.name, input, calls, patience);
  }

  lemma GraphIsNamed(wf: Workflow, fns: Fns, g: Graph, lg: LocalGraph)
    requires Fragment(wf, fns, g, lg)
    ensures Compiled(wf, g, lg) && WellNamed(g) && g.entry in g.nodes && lg.entry == g.entry
  {
    BuiltGraphIsWellNamed(wf);
  }

  /** On a new execution of a workflow of the fragment the two runs are the same exactly when the engine's path
      repeats no state. */
  lemma InterpretersAgreeExactly(wf: Workflow, fns: Fns, exec: string, g: Graph, lg: LocalGraph, input: Payload, w: World,
                                 patience: nat, depth: nat)
    requires Fragment(wf, fns, g, lg) && NoneCompleted(exec, w)
    ensures var x := Run(EnvOf(wf, fns), exec, g, input, w, patience, depth);
            SameRun(x, RunLocal(fns, lg, lg.entry, input, Bare(w.calls), patience)) <==> NoDuplicates(x.path)
  {
    hide RunFrom, RunLocal, Compiled, EnvOf, IsCompleted, Follows, Simple, AlwaysFits;
    GraphIsNamed(wf, fns, g, lg);
    var node := EntryNode(g).value;
    var x := RunFrom(EnvOf(wf, fns), exec, g, node, input, w, patience, depth);
    if Unmemoised(x, w, exec) {
      InterpretersAgree(wf, fns, exec, g, lg, node, input, w, patience, depth);
    } else {
      RevisitParts(wf, fns, exec, g, lg, node, input, w, patience, depth, {});
    }
  }

  /** So whenever the engine returns from a new execution, the SDK returns alike after the same calls. */
  lemma ReturningRunsAgree(wf: Workflow, fns: Fns, exec: string, g: Graph, lg: LocalGraph, input: Payload, w: World,
                           patience: nat, depth: nat)
    requires Fragment(wf, fns, g, lg) && NoneCompleted(exec, w)
    ensures var x := Run(EnvOf(wf, fns), exec, g, input, w, patience, depth);
            x.result != Stopped(Cancelled) ==> SameRun(x, RunLocal(fns, lg, lg.entry, input, Bare(w.calls), patience))
  {
    hide RunFrom, RunLocal, Compiled, EnvOf, IsCompleted, AlwaysFits;
    GraphIsNamed(wf, fns, g, lg);
    InterpretersAgreeExactly(wf, fns, exec, g, lg, input, w, patience, depth);
    if Run(EnvOf(wf, fns), exec, g, input, w, patience, depth).result != Stopped(Cancelled) {
      ReturningRunVisitsOnce(EnvOf(wf, fns), exec, g, EntryNode(g).value, input, w, patience, depth);
    }
  }

  // ----- acyclic flows never revisit

  /** A rank that falls along every successor, fixed or chosen. */
  ghost predicate FlowRanked(fns: Fns, g: Graph, rank: map<string, nat>) {
    && (forall n :: n in g.nodes ==> n in rank)
    && forall n :: n in g.nodes ==> NodeRanked(fns, g, rank, g.nodes[n])
  }

  ghost predicate NodeRanked(fns: Fns, g: Graph, rank: map<string, nat>, node: Node) {
    if node.task.kind == ChoiceKind then
      forall c, input :: fns.choice(c, node.name, input).Picked? ==> Falls(g, rank, node.name, fns.choice(c, node.name, input).state)
    else Falls(g, rank, node.name, node.next)
  }

  predicate Falls(g: Graph, rank: map<string, nat>, name: string, target: string) {
    target in g.nodes ==> name in rank && target in rank && rank[target] < rank[name]
  }

  lemma LocalTurnFalls(wf: Workflow, fns: Fns, g: Graph, lg: LocalGraph, rank: map<string, nat>, node: Node, input: Payload,
                       calls: seq<LocalCall>)
    requires Compiled(wf, g, lg) && At(g, node) && NodeRanked(fns, g, rank, node) && node.catch == ""
    ensures var turn := LocalTurnAfter(lg, Strip(node), input, RunLocalState(fns, Strip(node), input, calls).1);
            turn.LocalGoOn? ==> turn.next in g.nodes && Falls(g, rank, node.name, turn.next)
  {
    hide Compiled, LocalAttempts, Falls;
    var answer := RunLocalState(fns, Strip(node), input, calls).1;
    var turn := LocalTurnAfter(lg, Strip(node), input, answer);
    if turn.LocalGoOn? {
      CompiledNode(wf, g, lg, turn.next);
    }
  }

  ghost predicate FallsFrom(path: seq<string>, rank: map<string, nat>, top: int) {
    && (forall i :: 0 <= i < |path| ==> path[i] in rank && rank[path[i]] <= top)
    && forall i, j :: 0 <= i < j < |path| ==> rank[path[j]] < rank[path[i]]
  }

  lemma FallsFurther(name: string, path: seq<string>, rank: map<string, nat>, top: int)
    requires name in rank && FallsFrom(path, rank, top) && top < rank[name]
    ensures FallsFrom([name] + path, rank, rank[name])
  {
  }

  lemma {:induction false} RankedRunFalls(wf: Workflow, fns: Fns, g: Graph, lg: LocalGraph, rank: map<string, nat>, exec: string,
                                          node: Node, input: Payload, w: World, patience: nat, depth: nat)
    requires Fragment(wf, fns, g, lg) && FlowRanked(fns, g, rank) && At(g, node) && w.store.Mem?
    requires forall n :: n in rank && rank[n] <= rank[node.name] ==> !IsCompleted(w, exec, n)
    ensures FallsFrom(RunFrom(EnvOf(wf, fns), exec, g, node, input, w, patience, depth).path, rank, rank[node.name])
    decreases patience
  {
    hide Compiled, AlwaysFits, NodeRanked, ExecuteState, RunLocalState, TurnAfter, LocalTurnAfter, IsCompleted, CompletedWith,
         EnvOf, Bare, FallsFrom, Elsewhere;
    FallsTrivially(node.name, rank);
    if patience > 0 {
      Iterate(wf, fns, exec, g, lg, node, input, w, depth);
      LocalTurnFalls(wf, fns, g, lg, rank, node, input, Bare(w.calls));
      var (w1, r) := ExecuteState(EnvOf(wf, fns), exec, g, node, input, w, depth);
      var turn := TurnAfter(g, node, r);
      if turn.GoOn? {
        CompletedKept(w, w1, exec, node.name);
        RankedRunFalls(wf, fns, g, lg, rank, exec, turn.next, turn.output, w1, patience - 1, depth);
        var rest := RunFrom(EnvOf(wf, fns), exec, g, turn.next, turn.output, w1, patience - 1, depth);
        FallsFurther(node.name, rest.path, rank, rank[turn.next.name]);
      }
    }
  }

  lemma FallsTrivially(name: string, rank: map<string, nat>)
    requires name in rank
    ensures FallsFrom([], rank, rank[name]) && FallsFrom([name], rank, rank[name])
  {
  }

  lemma CompletedKept(w: World, w1: World, exec: string, name: string)
    requires Elsewhere(w, w1, exec, name)
    ensures w1.store.Mem? && forall n :: n != name ==> (IsCompleted(w1, exec, n) <==> IsCompleted(w, exec, n))
  {
    forall n | n != name ensures IsCompleted(w1, exec, n) <==> IsCompleted(w, exec, n) {
      assert MemLookup(w1.store.states, exec, n) == MemLookup(w.store.states, exec, n);
    }
  }

  /** A new execution of an acyclic workflow of the fragment, for any context lifetime: both interpreters
      agree, without any condition on the run itself. */
  lemma AcyclicFlowsAgree(wf: Workflow, fns: Fns, g: Graph, lg: LocalGraph, rank: map<string, nat>, exec: string, input: Payload,
                          w: World, patience: nat, depth: nat)
    requires Fragment(wf, fns, g, lg) && FlowRanked(fns, g, rank) && NoneCompleted(exec, w)
    ensures SameRun(Run(EnvOf(wf, fns), exec, g, input, w, patience, depth),
                    RunLocal(fns, lg, lg.entry, input, Bare(w.calls), patience))
  {
    hide RunFrom, RunLocal, Compiled, EnvOf, IsCompleted, AlwaysFits, NodeRanked;
    GraphIsNamed(wf, fns, g, lg);
    RankedRunFalls(wf, fns, g, lg, rank, exec, EntryNode(g).value, input, w, patience, depth);
    InterpretersAgreeExactly(wf, fns, exec, g, lg, input, w, patience, depth);
  }

  // ----- outside the fragment

  /** A wait hands on an empty output in the engine and its input in the SDK: they agree exactly on empty input. */
  lemma WaitsAgreeExactly(env: Env, fns: Fns, exec: string, g: Graph, node: Node, input: Payload, w: World,
                          calls: seq<LocalCall>, depth: nat)
    requires w.store.Mem? && node.task.kind == WaitKind && !IsCompleted(w, exec, node.name)
    ensures var local := RunLocalState(fns, Strip(node), input, calls).1;
            local.Ok? && (ExecuteState(env, exec, g, node, input, w, depth).1 == Output(local.output) <==> input == map[])
  {
    hide VisitState;
    VisitOnMemory(env, exec, node, input, w);
  }

  /** A failure with a catch in the graph: both interpreters see the same failure, and the SDK's loop goes on at
      the catch state. The engine's goes on there too exactly when its catch chain recovered and the failing
      state's own successor happens to be the catch state. */
  lemma CaughtRunsPart(wf: Workflow, fns: Fns, exec: string, g: Graph, lg: LocalGraph, node: Node, input: Payload, w: World,
                       patience: nat, depth: nat)
    requires Compiled(wf, g, lg) && At(g, node) && Inline(wf, node) && node.catch != "" && node.catch in g.nodes
    requires w.store.Mem? && !IsCompleted(w, exec, node.name) && patience >= 2
    requires RunLocalState(fns, Strip(node), input, Bare(w.calls)).1.Err?
    ensures var engine := RunFrom(EnvOf(wf, fns), exec, g, node, input, w, patience, depth).path;
            var local := RunLocal(fns, lg, node.name, input, Bare(w.calls), patience).path;
      && SameState(wf, fns, exec, node, input, w)
      && |local| >= 2 && local[0] == node.name && local[1] == node.catch
      && |engine| >= 1 && engine[0] == node.name
      && (|engine| >= 2 && engine[1] == node.catch <==>
            ExecuteState(EnvOf(wf, fns), exec, g, node, input, w, depth).1.Output? && !node.terminal && node.next == node.catch)
  {
    hide ExecuteState, RunLocalState, IsSentinel, Compiled, EnvOf, SameState, Bare, VisitState, IsCompleted;
    InlineStatesAgree(wf, fns, exec, node, input, w);
    CompiledNode(wf, g, lg, node.name);
    CompiledNode(wf, g, lg, node.next);
    CompiledNode(wf, g, lg, node.catch);
    LocalUnfolds(wf, fns, g, lg, node, input, Bare(w.calls), patience);
    var (calls1, answer) := RunLocalState(fns, Strip(node), input, Bare(w.calls));
    LocalPathStarts(fns, lg, node.catch, MergeErrorKey(input, answer.message), calls1, patience - 1);
    var (w1, r) := ExecuteState(EnvOf(wf, fns), exec, g, node, input, w, depth);
    var turn := TurnAfter(g, node, r);
    if turn.GoOn? {
      PathStarts(EnvOf(wf, fns), exec, g, turn.next, turn.output, w1, patience - 1, depth);
    }
  }

  ghost function BeginsIn(calls: seq<Call>): World -> bool {
    (w: World) => calls <= w.calls
  }

  lemma {:induction false} RunCallsGrow(env: Env, exec: string, g: Graph, node: Node, input: Payload, w: World, patience: nat, depth: nat)
    requires w.store.Mem?
    ensures w.calls <= RunFrom(env, exec, g, node, input, w, patience, depth).world.calls
  {
    hide VisitState, RunFrom;
    assert KeptByVisits(BeginsIn(w.calls), env, exec) by {
      forall node, input, w': World | BeginsIn(w.calls)(w') && w'.store.Mem?
        ensures BeginsIn(w.calls)(VisitState(env, exec, node, input, w').0)
      {
        VisitOnMemory(env, exec, node, input, w');
      }
    }
    RunFromKeeps(BeginsIn(w.calls), env, exec, g, node, input, w, patience, depth);
  }

  /** The first call of a state that is not completed carries the input the engine executes it with, and stays
      where it is however the execution goes on. */
  lemma ExecutionCallsFirst(env: Env, exec: string, g: Graph, node: Node, input: Payload, w: World, depth: nat)
    requires w.store.Mem? && !IsCompleted(w, exec, node.name) && Handled(env, node)
    ensures var w' := ExecuteState(env, exec, g, node, input, w, depth).0;
      && w.calls <= w'.calls && |w'.calls| > |w.calls|
      && w'.calls[|w.calls|].state == node.name && w'.calls[|w.calls|].input == input
  {
    hide VisitState;
    RetryAccounting(env, exec, node, input, w);
    VisitStaysInMemory(env, exec, node, input, w);
    var (w1, visit) := VisitState(env, exec, node, input, w);
    if visit.Faulted? && CatchOf(g, node).Some? && depth > 0 {
      CatchInputs(env, exec, g, CatchOf(g, node).value, MergeErrorKey(input, Message(visit.cause)), w1, depth - 1);
    }
  }

  /** After a failure with a catch in the graph both interpreters call the catch state next, with one and the
      same input: the failing state's, with the message under `_error` and nothing else changed. */
  lemma CaughtCallsAgree(wf: Workflow, fns: Fns, exec: string, g: Graph, lg: LocalGraph, node: Node, input: Payload, w: World,
                         patience: nat, depth: nat)
    requires Compiled(wf, g, lg) && At(g, node) && Inline(wf, node) && node.catch != "" && node.catch in g.nodes
    requires Inline(wf, g.nodes[node.catch]) || Chooses(wf, g.nodes[node.catch])
    requires w.store.Mem? && !IsCompleted(w, exec, node.name) && !IsCompleted(w, exec, node.catch) && patience >= 2 && depth >= 1
    requires RunLocalState(fns, Strip(node), input, Bare(w.calls)).1.Err?
    ensures var (calls1, answer) := RunLocalState(fns, Strip(node), input, Bare(w.calls));
            var engine := Bare(RunFrom(EnvOf(wf, fns), exec, g, node, input, w, patience, depth).world.calls);
            var local := RunLocal(fns, lg, node.name, input, Bare(w.calls), patience).calls;
            var next := LocalCall(node.catch, InputAt(input, Some(answer.message)));
            calls1 + [next] <= engine && calls1 + [next] <= local
  {
    hide VisitState, ExecuteState, RunFrom, RunLocal, RunLocalState, Compiled, EnvOf, IsCompleted, LocalTurnAfter;
    var env := EnvOf(wf, fns);
    var (calls1, answer) := RunLocalState(fns, Strip(node), input, Bare(w.calls));
    var given := InputAt(input, Some(answer.message));
    CompiledNode(wf, g, lg, node.catch);
    InlineStatesAgree(wf, fns, exec, node, input, w);
    VisitCompletes(env, exec, node, input, w);
    var (w1, visit) := VisitState(env, exec, node, input, w);
    RunsInProcess(wf, fns, node);
    RunsInProcess(wf, fns, g.nodes[node.catch]);
    EngineCatches(env, exec, g, node, input, w, patience, depth);
    ExecutionCallsFirst(env, exec, g, g.nodes[node.catch], given, w1, depth - 1);
    var w2 := ExecuteState(env, exec, g, node, input, w, depth).0;
    var end := RunFrom(env, exec, g, node, input, w, patience, depth).world;
    assert Bare(end.calls)[|w1.calls|] == LocalCall(node.catch, given);
    assert Bare(end.calls)[..|w1.calls|] == Bare(w1.calls);
    CaughtInput(lg, Strip(node), input, answer.message);
    SameCaughtInput(lg, Strip(node), input, answer.message);
    LocalUnfolds(wf, fns, g, lg, node, input, Bare(w.calls), patience);
    LocalCallsGrow(fns, lg, node.catch, given, calls1, patience - 1);
  }

  lemma RunsInProcess(wf: Workflow, fns: Fns, node: Node)
    requires node.task.kind != WaitKind
    ensures Handled(EnvOf(wf, fns), node)
  {
  }

  lemma SameCaughtInput(lg: LocalGraph, node: LocalNode, input: Payload, message: string)
    requires node.catch != ""
    ensures LocalTurnAfter(lg, node, input, Err(message)) == LocalGoOn(node.catch, InputAt(input, Some(message)))
  {
  }

  /** A fault with a catch in the graph: the execution is that of the catch state, and the run's calls extend it. */
  lemma EngineCatches(env: Env, exec: string, g: Graph, node: Node, input: Payload, w: World, patience: nat, depth: nat)
    requires w.store.Mem? && VisitState(env, exec, node, input, w).1.Faulted? && CatchOf(g, node).Some?
    requires patience >= 1 && depth >= 1 && Handled(env, node)
    ensures var (w1, visit) := VisitState(env, exec, node, input, w);
            var given := InputAt(input, Some(Message(visit.cause)));
            var w2 := ExecuteState(env, exec, g, node, input, w, depth).0;
      && w2 == ExecuteState(env, exec, g, CatchOf(g, node).value, given, w1, depth - 1).0
      && w2.calls <= RunFrom(env, exec, g, node, input, w, patience, depth).world.calls
  {
    hide VisitState;
    OnlyHandlerErrorsRaised(env, exec, g, node, input, w, depth);
    var (w2, r) := ExecuteState(env, exec, g, node, input, w, depth);
    var turn := TurnAfter(g, node, r);
    if turn.GoOn? {
      RunCallsGrow(env, exec, g, turn.next, turn.output, w2, patience - 1, depth);
    }
  }

  /** A failure whose catch has no step: the engine stops with the failure itself, the SDK after the same calls
      because it cannot find the catch state. */
  lemma DanglingCatchesFail(wf: Workflow, fns: Fns, exec: string, g: Graph, lg: LocalGraph, node: Node, input: Payload, w: World,
                            patience: nat, depth: nat)
    requires Compiled(wf, g, lg) && At(g, node) && Inline(wf, node) && node.catch != "" && node.catch !in g.nodes
    requires w.store.Mem? && !IsCompleted(w, exec, node.name) && patience >= 2
    requires RunLocalState(fns, Strip(node), input, Bare(w.calls)).1.Err?
    ensures var (calls1, answer) := RunLocalState(fns, Strip(node), input, Bare(w.calls));
            var x := RunFrom(EnvOf(wf, fns), exec, g, node, input, w, patience, depth);
      && Bare(x.world.calls) == calls1 && x.path == [node.name] && x.result == Stopped(HandlerError(answer.message))
      && RunLocal(fns, lg, node.name, input, Bare(w.calls), patience) == LocalRun(calls1, [node.name], Lost(node.catch))
  {
    hide VisitState, RunLocalState, Compiled, EnvOf, IsCompleted, Bare, MergeErrorKey;
    InlineStatesAgree(wf, fns, exec, node, input, w);
    CompiledNode(wf, g, lg, node.catch);
    LocalUnfolds(wf, fns, g, lg, node, input, Bare(w.calls), patience);
    assert [node.name] + [] == [node.name];
  }

  lemma PathStarts(env: Env, exec: string, g: Graph, node: Node, input: Payload, w: World, patience: nat, depth: nat)
    requires patience > 0
    ensures var p := RunFrom(env, exec, g, node, input, w, patience, depth).path; p != [] && p[0] == node.name
  {
    hide ExecuteState, TurnAfter;
  }

  lemma LocalPathStarts(fns: Fns, lg: LocalGraph, current: string, input: Payload, calls: seq<LocalCall>, patience: nat)
    requires patience > 0 && current in lg.nodes
    ensures var p := RunLocal(fns, lg, current, input, calls, patience).path; p != [] && p[0] == current
  {
    hide RunLocalState, LocalTurnAfter;
  }
}
