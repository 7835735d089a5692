/** The executor as a function on a world: the store, the external calls made so far and the
    transitions emitted so far.

    Two bounds make every run a finite object without excluding any. `patience` is the number of
    state boundaries at which the context is still alive, so a run that never returns is one that is
    cancelled for every patience. `depth` is the number of nested catch executions observed; a state
    whose catch recursion goes deeper yields `Unfinished`. */
module Engine {
  import opened Types
  import opened Stores
  import opened Workflows

  /** Handlers and the service dispatcher answer as they like on each call: the first argument is
      the number of external calls made before. */
  datatype Env = Env(
    handler: (nat, string, Payload) -> Outcome,
    dispatcher: Option<(nat, string, string, Payload) -> Outcome>)

  /** One external call, with the record the store held for the state at that moment. `service` is
      empty for a handler call. */
  datatype Call = Call(state: string, input: Payload, attempt: int, service: string, seen: Option<StateRecord>)

  /** One emitted transition, with the stored status before and after the operation it reports. */
  datatype Event = Event(
    state: string, from: Status, to: Status, message: string,
    before: Option<Status>, after: Option<Status>)

  datatype World = World(store: Store, calls: seq<Call>, events: seq<Event>)

  datatype Error =
    | HandlerError(message: string)
    | StoreFailure(cause: StoreError)
    | BadChoice(state: string, key: string)
    | NoNext(state: string, target: string)
    | Cancelled

  /** What the work of a state can end with: a handler's own error, or a store error met between attempts. */
  type Fault = e: Error | e.HandlerError? || e.StoreFailure? witness HandlerError("")

  /** The text of a fault, as `err.Error()` gives it. */
  function Message(e: Fault): string {
    match e
    case HandlerError(m) => m
    case StoreFailure(StateNotFound) => "store: state record not found"
    case StoreFailure(StateNotCompleted) => "store: state is not in Completed status"
    case StoreFailure(StateAlreadyTerminal) => "store: state record already in terminal status"
    case StoreFailure(OutputTooLarge) => "store: output exceeds 1 MB and no object store is configured"
    case StoreFailure(OutputNotEncodable) => "store: marshal output"
    case StoreFailure(ObjectMissing) => "store: dereference large output: object store: key not found"
    case StoreFailure(ObjectNotDecodable) => "store: unmarshal large output"
    case StoreFailure(ObjectStoreAbsent) => "invalid memory address or nil pointer dereference"
  }

  ghost function StatusOf(s: Store, exec: string, state: string): Option<Status> {
    match Lookup(s, exec, state)
    case None => None
    case Some(r) => Some(r.status)
  }

  // ----- single effects

  ghost function Do(w: World, op: Op): (World, Reply) {
    var (s, r) := Apply(w.store, op);
    (w.(store := s), r)
  }

  /** Perform an operation and, when it is accepted, emit the transition it stands for. */
  ghost function DoAndEmit(w: World, op: Op, from: Status, to: Status, message: string): (World, Option<StoreError>) {
    var before := StatusOf(w.store, op.exec, op.state);
    var (w1, r) := Do(w, op);
    if r.Refused? then (w1, Some(r.error))
    else
      var event := Event(op.state, from, to, message, before, StatusOf(w1.store, op.exec, op.state));
      (w1.(events := w1.events + [event]), None)
  }

  ghost function Start(w: World, exec: string, state: string): (World, Option<StoreError>) {
    DoAndEmit(w, MarkRunning(exec, state), Pending, Running, "")
  }

  ghost function RecordFailure(w: World, exec: string, state: string, message: string): (World, Option<StoreError>) {
    DoAndEmit(w, Fail(exec, state, message), Running, Failed, message)
  }

  ghost function RecordCompletion(w: World, exec: string, state: string, output: Payload): (World, Option<StoreError>) {
    DoAndEmit(w, Complete(exec, state, output), Running, Completed, "")
  }

  ghost function LogCall(w: World, exec: string, state: string, input: Payload, attempt: int, service: string): World {
    w.(calls := w.calls + [Call(state, input, attempt, service, Lookup(w.store, exec, state))])
  }

  // ----- applyRetry

  datatype Attempted = Succeeded(output: Payload) | Errored(error: Fault)

  function MaxAttempts(retry: Option<RetryPolicy>): (n: nat)
    ensures n >= 1
  {
    if retry.Some? && retry.value.maxAttempts > 1 then retry.value.maxAttempts else 1
  }

  /** The retry loop from the handler call of the given attempt on. */
  ghost function Attempts(env: Env, exec: string, state: string, input: Payload, w: World,
                          attempt: nat, max: nat): (World, Attempted)
    requires attempt <= max
    decreases max - attempt
  {
    var w1 := LogCall(w, exec, state, input, attempt, "");
    match env.handler(|w.calls|, state, input)
    case Ok(output) => (w1, Succeeded(output))
    case Err(message) =>
      if attempt == max then (w1, Errored(HandlerError(message)))
      else
        var (w2, failed) := RecordFailure(w1, exec, state, message);
        if failed.Some? then (w2, Errored(StoreFailure(failed.value)))
        else
          var (w3, ahead) := Do(w2, WriteAhead(exec, state, input, attempt + 1));
          if ahead.Refused? then (w3, Errored(StoreFailure(ahead.error)))
          else
            var (w4, started) := Start(w3, exec, state);
            if started.Some? then (w4, Errored(StoreFailure(started.value)))
            else Attempts(env, exec, state, input, w4, attempt + 1, max)
  }

  // ----- executeState

  /** Run the work of a started state: sleep, dispatch, or the retried handler. */
  ghost function Work(env: Env, exec: string, node: Node, input: Payload, w: World): (World, Attempted) {
    if node.task.kind == WaitKind then (w, Succeeded(map[]))
    else if node.task.serviceTarget != "" && env.dispatcher.Some? then
      var target := node.task.serviceTarget;
      var w1 := LogCall(w, exec, node.name, input, 1, target);
      match env.dispatcher.value(|w.calls|, node.name, target, input)
      case Ok(output) => (w1, Succeeded(output))
      case Err(message) => (w1, Errored(HandlerError(message)))
    else
      Attempts(env, exec, node.name, input, w, 1, MaxAttempts(node.retry))
  }

  /** `Faulted` is a failed handler, recorded and open to a catch; `Broken` is a store error, which no catch sees. */
  datatype Visit = Produced(output: Payload) | Faulted(cause: Fault) | Broken(error: StoreError)

  /** One state without its catch: write-ahead, start, work, and the final record. */
  ghost function VisitState(env: Env, exec: string, node: Node, input: Payload, w: World): (World, Visit) {
    var (w1, ahead) := Do(w, WriteAhead(exec, node.name, input, 1));
    if ahead == Refused(StateAlreadyTerminal) then
      var (w2, stored) := Do(w1, GetOutput(exec, node.name));
      (w2, if stored.Read? then Produced(stored.output)
           else if stored.Refused? then Broken(stored.error) else Broken(StateNotFound))
    else if ahead.Refused? then (w1, Broken(ahead.error))
    else
      var (w2, started) := Start(w1, exec, node.name);
      if started.Some? then (w2, Broken(started.value))
      else
        var (w3, done) := Work(env, exec, node, input, w2);
        match done
        case Succeeded(output) =>
          var (w4, failed) := RecordCompletion(w3, exec, node.name, output);
          (w4, if failed.Some? then Broken(failed.value) else Produced(output))
        case Errored(cause) =>
          var (w4, failed) := RecordFailure(w3, exec, node.name, Message(cause));
          (w4, if failed.Some? then Broken(failed.value) else Faulted(cause))
  }

  datatype StateResult = Output(output: Payload) | Raised(error: Error) | Unfinished

  ghost function ExecuteState(env: Env, exec: string, g: Graph, node: Node, input: Payload, w: World,
                              depth: nat): (World, StateResult)
    decreases depth
  {
    var (w1, visit) := VisitState(env, exec, node, input, w);
    match visit
    case Produced(output) => (w1, Output(output))
    case Broken(error) => (w1, Raised(StoreFailure(error)))
    case Faulted(cause) =>
      if node.catch == "" || node.catch !in g.nodes then (w1, Raised(cause))
      else if depth == 0 then (w1, Unfinished)
      else ExecuteState(env, exec, g, g.nodes[node.catch], MergeErrorKey(input, Message(cause)), w1, depth - 1)
  }

  // ----- Run

  datatype RunResult = Finished | Stopped(error: Error) | Stalled

  /** `path` lists the nodes whose execution was started by the loop, in order. */
  datatype Execution = Execution(world: World, path: seq<string>, result: RunResult)

  /** What the loop does with the result of a state: stop, or go on at a node with the output as its input. */
  datatype Turn = Stop(result: RunResult) | GoOn(next: Node, output: Payload)

  /** The successor is looked up from the node the loop was at, also when a catch produced the output. */
  function TurnAfter(g: Graph, node: Node, r: StateResult): Turn {
    match r
    case Raised(error) => Stop(Stopped(error))
    case Unfinished => Stop(Stalled)
    case Output(output) =>
      match Next(g, node, ChoiceKey(node, output))
      case Halt => Stop(Finished)
      case UnknownChoice(key) => Stop(Stopped(BadChoice(node.name, key)))
      case MissingNext(target) => Stop(Stopped(NoNext(node.name, target)))
      case Goto(next) => GoOn(next, output)
  }

  ghost function RunFrom(env: Env, exec: string, g: Graph, node: Node, current: Payload, w: World,
                         patience: nat, depth: nat): Execution
    decreases patience
  {
    if patience == 0 then Execution(w, [], Stopped(Cancelled))
    else
      var (w1, r) := ExecuteState(env, exec, g, node, current, w, depth);
      match TurnAfter(g, node, r)
      case Stop(result) => Execution(w1, [node.name], result)
      case GoOn(next, output) =>
        var rest := RunFrom(env, exec, g, next, output, w1, patience - 1, depth);
        rest.(path := [node.name] + rest.path)
  }

  /** `Executor.Run`; a graph without its entry node finishes at once. */
  ghost function Run(env: Env, exec: string, g: Graph, input: Payload, w: World, patience: nat, depth: nat): Execution {
    match EntryNode(g)
    case None => Execution(w, [], Finished)
    case Some(node) => RunFrom(env, exec, g, node, input, w, patience, depth)
  }
}
