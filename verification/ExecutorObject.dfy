/** The executor as it runs: loops and recursion that change a store step by step, proved against the
    functions of the engine, on either store. */
module ExecutorObject {
  import opened Types
  import opened Stores
  import opened StoreObjects
  import opened Workflows
  import opened Engine

  /** The retry loop after a failed attempt, up to the next handler call and on. */
  ghost function AfterFailure(env: Env, exec: string, state: string, input: Payload, w: World,
                              attempt: nat, max: nat, message: string): (World, Attempted)
    requires attempt < max
  {
    var (w2, failed) := RecordFailure(w, exec, state, message);
    if failed.Some? then (w2, Errored(StoreFailure(failed.value)))
    else
      var (w3, ahead) := Do(w2, WriteAhead(exec, state, input, attempt + 1));
      if ahead.Refused? then (w3, Errored(StoreFailure(ahead.error)))
      else
        var (w4, started) := Start(w3, exec, state);
        if started.Some? then (w4, Errored(StoreFailure(started.value)))
        else Attempts(env, exec, state, input, w4, attempt + 1, max)
  }

  ghost function AfterAnswer(env: Env, exec: string, state: string, input: Payload, w: World,
                             attempt: nat, max: nat, answer: Outcome): (World, Attempted)
    requires attempt <= max
  {
    match answer
    case Ok(output) => (w, Succeeded(output))
    case Err(message) =>
      if attempt == max then (w, Errored(HandlerError(message)))
      else AfterFailure(env, exec, state, input, w, attempt, max, message)
  }

  class Executor {
    const env: Env
    const store: StoreHandle
    var callCount: nat
    ghost var calls: seq<Call>
    ghost var events: seq<Event>

    ghost function Current(): World
      reads this, store.Footprint()
    {
      World(store.Value(), calls, events)
    }

    ghost predicate Valid()
      reads this, store.Footprint()
    {
      callCount == |calls| && this !in store.Footprint() && store.Valid()
    }

    constructor (env: Env, store: StoreHandle)
      requires store.Valid()
      ensures this.env == env && this.store == store && Valid()
      ensures Current() == World(store.Value(), [], [])
    {
      this.env, this.store := env, store;
      callCount, calls, events := 0, [], [];
    }

    // ----- store operation plus emitted transition

    method Start(exec: string, state: string) returns (failed: Option<StoreError>)
      requires Valid()
      modifies this, store.Footprint()
      ensures Valid() && (Current(), failed) == Engine.Start(old(Current()), exec, state)
    {
      ghost var before := StatusOf(store.Value(), exec, state);
      var reply := store.Perform(MarkRunning(exec, state));
      if reply.Refused? {
        return Some(reply.error);
      }
      events := events + [Event(state, Pending, Running, "", before, StatusOf(store.Value(), exec, state))];
      return None;
    }

    method RecordFailure(exec: string, state: string, message: string) returns (failed: Option<StoreError>)
      requires Valid()
      modifies this, store.Footprint()
      ensures Valid() && (Current(), failed) == Engine.RecordFailure(old(Current()), exec, state, message)
    {
      ghost var before := StatusOf(store.Value(), exec, state);
      var reply := store.Perform(Fail(exec, state, message));
      if reply.Refused? {
        return Some(reply.error);
      }
      events := events + [Event(state, Running, Failed, message, before, StatusOf(store.Value(), exec, state))];
      return None;
    }

    method RecordCompletion(exec: string, state: string, output: Payload) returns (failed: Option<StoreError>)
      requires Valid()
      modifies this, store.Footprint()
      ensures Valid() && (Current(), failed) == Engine.RecordCompletion(old(Current()), exec, state, output)
    {
      ghost var before := StatusOf(store.Value(), exec, state);
      var reply := store.Perform(Complete(exec, state, output));
      if reply.Refused? {
        return Some(reply.error);
      }
      events := events + [Event(state, Running, Completed, "", before, StatusOf(store.Value(), exec, state))];
      return None;
    }

    /** Call the handler; the call is logged with what the store holds for the state. */
    method Invoke(exec: string, state: string, input: Payload, attempt: nat) returns (answer: Outcome)
      requires Valid()
      modifies this
      ensures Valid() && answer == env.handler(|old(calls)|, state, input)
      ensures Current() == LogCall(old(Current()), exec, state, input, attempt, "")
    {
      answer := env.handler(callCount, state, input);
      calls := calls + [Call(state, input, attempt, "", Lookup(store.Value(), exec, state))];
      callCount := callCount + 1;
    }

    // ----- applyRetry

    /** Fail the last attempt, write the next one ahead and start it. */
    method PrepareRetry(exec: string, state: string, input: Payload, attempt: nat, message: string) returns (failed: Option<StoreError>)
      requires Valid()
      modifies this, store.Footprint()
      ensures Valid()
      ensures forall max: nat :: attempt < max ==>
                AfterFailure(env, exec, state, input, old(Current()), attempt, max, message)
                == if failed.Some? then (Current(), Errored(StoreFailure(failed.value)))
                   else Attempts(env, exec, state, input, Current(), attempt + 1, max)
    {
      hide Attempts, Engine.RecordFailure, Do, Engine.Start;
      failed := RecordFailure(exec, state, message);
      if failed.Some? {
        return;
      }
      ghost var w2 := Current();
      var ahead := store.Perform(WriteAhead(exec, state, input, attempt + 1));
      Performed(w2, Current(), WriteAhead(exec, state, input, attempt + 1), ahead);
      if ahead.Refused? {
        return Some(ahead.error);
      }
      failed := Start(exec, state);
    }

    method ApplyRetry(exec: string, node: Node, input: Payload) returns (r: Attempted)
      requires Valid()
      modifies this, store.Footprint()
      ensures Valid()
      ensures (Current(), r) == Attempts(env, exec, node.name, input, old(Current()), 1, MaxAttempts(node.retry))
    {
      hide Attempts, AfterFailure, LogCall;
      var maxAttempts := 1;
      if node.retry.Some? {
        if node.retry.value.maxAttempts > 1 {
          maxAttempts := node.retry.value.maxAttempts;
        }
      }
      ghost var goal := Attempts(env, exec, node.name, input, Current(), 1, maxAttempts);
      var lastErr := "";
      var attempt := 1;
      while attempt <= maxAttempts
        invariant 1 <= attempt <= maxAttempts + 1 && Valid()
        invariant attempt == 1 ==> goal == Attempts(env, exec, node.name, input, Current(), 1, maxAttempts)
        invariant 1 < attempt <= maxAttempts ==>
                    goal == AfterFailure(env, exec, node.name, input, Current(), attempt - 1, maxAttempts, lastErr)
        invariant attempt > maxAttempts ==> goal == (Current(), Errored(HandlerError(lastErr)))
      {
        if attempt > 1 {
          var failed := PrepareRetry(exec, node.name, input, attempt - 1, lastErr);
          if failed.Some? {
            return Errored(StoreFailure(failed.value));
          }
        }
        ghost var w := Current();
        var answer := Invoke(exec, node.name, input, attempt);
        AttemptsUnfolds(env, exec, node.name, input, w, attempt, maxAttempts);
        if answer.Ok? {
          return Succeeded(answer.output);
        }
        lastErr := answer.message;
        attempt := attempt + 1;
      }
      return Errored(HandlerError(lastErr));
    }

    // ----- executeState

    method Work(exec: string, node: Node, input: Payload) returns (r: Attempted)
      requires Valid()
      modifies this, store.Footprint()
      ensures Valid() && (Current(), r) == Engine.Work(env, exec, node, input, old(Current()))
    {
      hide Attempts;
      if node.task.kind == WaitKind {
        return Succeeded(map[]);
      }
      var target := node.task.serviceTarget;
      if target != "" && env.dispatcher.Some? {
        var answer := env.dispatcher.value(callCount, node.name, target, input);
        calls := calls + [Call(node.name, input, 1, target, Lookup(store.Value(), exec, node.name))];
        callCount := callCount + 1;
        match answer
        case Ok(output) => return Succeeded(output);
        case Err(message) => return Errored(HandlerError(message));
      }
      r := ApplyRetry(exec, node, input);
    }

    /** executeState up to its catch. */
    method Visit(exec: string, node: Node, input: Payload) returns (r: Engine.Visit)
      requires Valid()
      modifies this, store.Footprint()
      ensures Valid() && (Current(), r) == VisitState(env, exec, node, input, old(Current()))
    {
      hide Engine.Work, Engine.RecordFailure, Engine.RecordCompletion, Engine.Start, Do, MemApply;
      ghost var w := Current();
      var ahead := store.Perform(WriteAhead(exec, node.name, input, 1));
      Performed(w, Current(), WriteAhead(exec, node.name, input, 1), ahead);
      if ahead.Refused? {
        if ahead.error == StateAlreadyTerminal {
          ghost var w1 := Current();
          var stored := store.Perform(GetOutput(exec, node.name));
          Performed(w1, Current(), GetOutput(exec, node.name), stored);
          if stored.Read? {
            return Produced(stored.output);
          }
          return Broken(if stored.Refused? then stored.error else StateNotFound);
        }
        return Broken(ahead.error);
      }
      var failed := Start(exec, node.name);
      if failed.Some? {
        return Broken(failed.value);
      }
      var done := Work(exec, node, input);
      match done
      case Succeeded(output) =>
        failed := RecordCompletion(exec, node.name, output);
        return if failed.Some? then Broken(failed.value) else Produced(output);
      case Errored(cause) =>
        failed := RecordFailure(exec, node.name, Message(cause));
        return if failed.Some? then Broken(failed.value) else Faulted(cause);
    }

    /** The recursion through catch handlers, seen to the given depth. */
    method ExecuteState(exec: string, g: Graph, node: Node, input: Payload, depth: nat) returns (r: StateResult)
      requires Valid()
      modifies this, store.Footprint()
      ensures Valid() && (Current(), r) == Engine.ExecuteState(env, exec, g, node, input, old(Current()), depth)
      decreases depth
    {
      hide VisitState;
      var visit := Visit(exec, node, input);
      match visit
      case Produced(output) => return Output(output);
      case Broken(error) => return Raised(StoreFailure(error));
      case Faulted(cause) =>
        if node.catch == "" || node.catch !in g.nodes {
          return Raised(cause);
        }
        if depth == 0 {
          return Unfinished;
        }
        r := ExecuteState(exec, g, g.nodes[node.catch], MergeErrorKey(input, Message(cause)), depth - 1);
    }

    // ----- Run

    /** The loop of Run; the context is alive at the first `patience` state boundaries. */
    method Run(exec: string, g: Graph, input: Payload, patience: nat, depth: nat)
      returns (result: RunResult, ghost path: seq<string>)
      requires Valid()
      modifies this, store.Footprint()
      ensures Valid()
      ensures Execution(Current(), path, result) == Engine.Run(env, exec, g, input, old(Current()), patience, depth)
    {
      hide Engine.ExecuteState, TurnAfter;
      path := [];
      if g.entry !in g.nodes {
        return Finished, path;
      }
      var node := g.nodes[g.entry];
      var current := input;
      var left := patience;
      ghost var goal := Engine.Run(env, exec, g, input, Current(), patience, depth);
      while left > 0
        invariant Valid()
        invariant goal == var rest := RunFrom(env, exec, g, node, current, Current(), left, depth);
                          rest.(path := path + rest.path)
      {
        var r := ExecuteState(exec, g, node, current, depth);
        left := left - 1;
        path := path + [node.name];
        var turn := TurnAfter(g, node, r);
        match turn
        case Stop(stopped) =>
          return stopped, path;
        case GoOn(next, output) =>
          node := next;
          current := output;
      }
      return Stopped(Cancelled), path;
    }
  }

  lemma Performed(w: World, w': World, op: Op, reply: Reply)
    requires w'.calls == w.calls && w'.events == w.events && (w'.store, reply) == Apply(w.store, op)
    ensures Do(w, op) == (w', reply)
  {
  }

  lemma AttemptsUnfolds(env: Env, exec: string, state: string, input: Payload, w: World, attempt: nat, max: nat)
    requires attempt <= max
    ensures Attempts(env, exec, state, input, w, attempt, max) ==
            AfterAnswer(env, exec, state, input, LogCall(w, exec, state, input, attempt, ""), attempt, max,
                        env.handler(|w.calls|, state, input))
  {
  }
}
