/** Completed states are answered from the store. What follows for whole runs: a catch-free run that
    revisits a state never returns, and cancelling and resuming is invisible. */
module Memoisation {
  import opened Types
  import opened Keys
  import opened Stores
  import opened Workflows
  import opened Engine
  import opened Visits
  import opened Journal
  import opened CatchChains

  // ----- one state

  ghost predicate CompletedWith(w: World, exec: string, state: string, output: Payload) {
    IsCompleted(w, exec, state) && MemLookup(w.store.states, exec, state).value.output == output
  }

  lemma MemoHit(env: Env, exec: string, g: Graph, node: Node, input: Payload, w: World, depth: nat, output: Payload)
    requires CompletedWith(w, exec, node.name, output)
    ensures ExecuteState(env, exec, g, node, input, w, depth) == (w, Output(output))
  {
    hide VisitState;
    VisitOnMemory(env, exec, node, input, w);
  }

  /** Where no catch can follow, a state that yields an output has just been, or already was, completed with it. */
  lemma OutputIsStored(env: Env, exec: string, g: Graph, node: Node, input: Payload, w: World, depth: nat)
    requires w.store.Mem? && EndsChain(g, node)
    ensures var (w1, r) := ExecuteState(env, exec, g, node, input, w, depth);
      && w1.store.Mem? && r != Unfinished
      && (r.Output? ==> CompletedWith(w1, exec, node.name, r.output))
      && (r.Raised? ==> r.error.HandlerError? && !IsCompleted(w1, exec, node.name))
  {
    hide VisitState;
    VisitOnMemory(env, exec, node, input, w);
  }

  lemma CompletionOutlivesRun(env: Env, exec: string, g: Graph, node: Node, current: Payload, w: World,
                              patience: nat, depth: nat, state: string, output: Payload)
    requires CompletedWith(w, exec, state, output)
    ensures CompletedWith(RunFrom(env, exec, g, node, current, w, patience, depth).world, exec, state, output)
  {
    hide VisitState, RunFrom;
    var r := MemLookup(w.store.states, exec, state).value;
    CompletionKept(env, exec, state, r);
    RunFromKeeps(HoldsIn(exec, state, r), env, exec, g, node, current, w, patience, depth);
  }

  // ----- a catch-free run is an orbit of its final store

  /** In this store state a is completed, and what it stored leads to b. */
  ghost predicate Follows(g: Graph, exec: string, w: World, a: string, b: string) {
    && a in g.nodes && b in g.nodes && IsCompleted(w, exec, a)
    && var output := MemLookup(w.store.states, exec, a).value.output;
       TurnAfter(g, g.nodes[a], Output(output)) == GoOn(g.nodes[b], output)
  }

  /** The run stopped at state a with this result, without being cancelled. */
  ghost predicate EndsAt(g: Graph, exec: string, w: World, a: string, result: RunResult) {
    && a in g.nodes
    && (IsCompleted(w, exec, a) ==>
          TurnAfter(g, g.nodes[a], Output(MemLookup(w.store.states, exec, a).value.output)) == Stop(result))
  }

  ghost predicate Orbit(g: Graph, exec: string, x: Execution) {
    && (forall i :: 0 <= i < |x.path| - 1 ==> Follows(g, exec, x.world, x.path[i], x.path[i + 1]))
    && (x.result != Stopped(Cancelled) ==> x.path != [] && EndsAt(g, exec, x.world, x.path[|x.path| - 1], x.result))
    && (forall i :: 0 <= i < |x.path| ==> x.path[i] in g.nodes)
  }

  ghost predicate Proper(g: Graph, node: Node) {
    WellNamed(g) && CatchFree(g) && node.name in g.nodes && g.nodes[node.name] == node
  }

  lemma {:induction false} RunIsOrbit(env: Env, exec: string, g: Graph, node: Node, current: Payload, w: World,
                                      patience: nat, depth: nat)
    requires w.store.Mem? && Proper(g, node)
    ensures var x := RunFrom(env, exec, g, node, current, w, patience, depth);
      && Orbit(g, exec, x)
      && |x.path| <= patience && (x.result == Stopped(Cancelled) ==> |x.path| == patience)
      && (patience > 0 ==> x.path != [] && x.path[0] == node.name)
    decreases patience
  {
    hide ExecuteState, IsCompleted, CompletedWith;
    if patience > 0 {
      OutputIsStored(env, exec, g, node, current, w, depth);
      var (w1, r) := ExecuteState(env, exec, g, node, current, w, depth);
      var turn := TurnAfter(g, node, r);
      if turn.GoOn? {
        var rest := RunFrom(env, exec, g, turn.next, r.output, w1, patience - 1, depth);
        RunIsOrbit(env, exec, g, turn.next, r.output, w1, patience - 1, depth);
        CompletionOutlivesRun(env, exec, g, turn.next, r.output, w1, patience - 1, depth, node.name, r.output);
        OrbitGrows(g, exec, node, turn.next, r.output, rest);
      } else {
        OrbitOfOne(g, exec, node, w1, r, turn.result);
      }
    }
  }

  lemma OrbitOfOne(g: Graph, exec: string, node: Node, w1: World, r: StateResult, result: RunResult)
    requires Proper(g, node) && TurnAfter(g, node, r) == Stop(result)
    requires r.Output? ==> CompletedWith(w1, exec, node.name, r.output)
    requires r.Raised? ==> !IsCompleted(w1, exec, node.name)
    requires r != Unfinished
    ensures Orbit(g, exec, Execution(w1, [node.name], result))
  {
  }

  lemma OrbitGrows(g: Graph, exec: string, node: Node, next: Node, output: Payload, rest: Execution)
    requires Proper(g, node) && Orbit(g, exec, rest)
    requires TurnAfter(g, node, Output(output)) == GoOn(next, output)
    requires CompletedWith(rest.world, exec, node.name, output)
    requires rest.path != [] ==> rest.path[0] == next.name
    ensures Orbit(g, exec, rest.(path := [node.name] + rest.path))
  {
    var p := [node.name] + rest.path;
    forall i | 0 <= i < |p| - 1 ensures Follows(g, exec, rest.world, p[i], p[i + 1]) {
      if i > 0 {
        assert Follows(g, exec, rest.world, rest.path[i - 1], rest.path[i]);
      }
    }
  }

  lemma {:induction false} OrbitIsPeriodic(g: Graph, exec: string, x: Execution, i: nat, j: nat, k: nat)
    requires Orbit(g, exec, x) && WellNamed(g)
    requires i < j && j + k < |x.path| && x.path[i] == x.path[j]
    ensures x.path[i + k] == x.path[j + k]
    decreases k
  {
    hide IsCompleted;
    if k > 0 {
      OrbitIsPeriodic(g, exec, x, i, j, k - 1);
      assert Follows(g, exec, x.world, x.path[i + k - 1], x.path[i + k - 1 + 1]);
      assert Follows(g, exec, x.world, x.path[j + k - 1], x.path[j + k - 1 + 1]);
    }
  }

  /** A catch-free run that visits a state twice repeats the path between the two visits for ever and can
      only be cancelled. */
  lemma RevisitNeverReturns(env: Env, exec: string, g: Graph, node: Node, current: Payload, w: World,
                            patience: nat, depth: nat, i: nat, j: nat)
    requires w.store.Mem? && Proper(g, node)
    requires var p := RunFrom(env, exec, g, node, current, w, patience, depth).path;
             i < j < |p| && p[i] == p[j]
    ensures var x := RunFrom(env, exec, g, node, current, w, patience, depth);
      && x.result == Stopped(Cancelled)
      && forall n :: j <= n < |x.path| ==> x.path[n] == x.path[n - (j - i)]
  {
    hide RunFrom, IsCompleted;
    RunIsOrbit(env, exec, g, node, current, w, patience, depth);
    var x := RunFrom(env, exec, g, node, current, w, patience, depth);
    forall n | j <= n < |x.path| ensures x.path[n] == x.path[n - (j - i)] {
      OrbitIsPeriodic(g, exec, x, i, j, n - j);
    }
    var n := |x.path| - 1 - (j - i);
    assert x.path[|x.path| - 1] == x.path[n];
    assert Follows(g, exec, x.world, x.path[n], x.path[n + 1]);
  }

  /** So a catch-free run that returns visits pairwise distinct states, at most one iteration per node. */
  lemma ReturningRunVisitsOnce(env: Env, exec: string, g: Graph, node: Node, current: Payload, w: World,
                               patience: nat, depth: nat)
    requires w.store.Mem? && Proper(g, node)
    requires RunFrom(env, exec, g, node, current, w, patience, depth).result != Stopped(Cancelled)
    ensures var p := RunFrom(env, exec, g, node, current, w, patience, depth).path;
            NoDuplicates(p) && |p| <= |g.nodes|
  {
    hide RunFrom;
    var p := RunFrom(env, exec, g, node, current, w, patience, depth).path;
    forall i, j | 0 <= i < j < |p| ensures p[i] != p[j] {
      if p[i] == p[j] {
        RevisitNeverReturns(env, exec, g, node, current, w, patience, depth, i, j);
      }
    }
    RunIsOrbit(env, exec, g, node, current, w, patience, depth);
    DistinctWithinSet(p, g.nodes.Keys);
  }

  /** A longer-lived context only extends the path. */
  lemma {:induction false} PatienceExtendsPath(env: Env, exec: string, g: Graph, node: Node, current: Payload, w: World,
                                               patience: nat, more: nat, depth: nat)
    requires patience <= more
    ensures RunFrom(env, exec, g, node, current, w, patience, depth).path
         <= RunFrom(env, exec, g, node, current, w, more, depth).path
    decreases patience
  {
    hide ExecuteState;
    if patience > 0 {
      var (w1, r) := ExecuteState(env, exec, g, node, current, w, depth);
      var turn := TurnAfter(g, node, r);
      if turn.GoOn? {
        PatienceExtendsPath(env, exec, g, turn.next, turn.output, w1, patience - 1, more - 1, depth);
      }
    }
  }

  /** Termination is decided by the number of nodes: a catch-free run still going after one iteration more
      than there are nodes will not return however long the context lives. */
  lemma OverlongRunNeverReturns(env: Env, exec: string, g: Graph, node: Node, current: Payload, w: World,
                                patience: nat, depth: nat)
    requires w.store.Mem? && Proper(g, node) && patience > |g.nodes|
    requires RunFrom(env, exec, g, node, current, w, |g.nodes| + 1, depth).result == Stopped(Cancelled)
    ensures RunFrom(env, exec, g, node, current, w, patience, depth).result == Stopped(Cancelled)
  {
    hide RunFrom;
    RunIsOrbit(env, exec, g, node, current, w, |g.nodes| + 1, depth);
    PatienceExtendsPath(env, exec, g, node, current, w, |g.nodes| + 1, patience, depth);
    if RunFrom(env, exec, g, node, current, w, patience, depth).result != Stopped(Cancelled) {
      ReturningRunVisitsOnce(env, exec, g, node, current, w, patience, depth);
    }
  }

  // ----- which state produced an output

  /** The state, of the one executed and its catches, whose output the execution returned. */
  ghost function ProducedBy(env: Env, exec: string, g: Graph, node: Node, input: Payload, w: World, depth: nat): Option<string>
    decreases depth
  {
    var (w1, visit) := VisitState(env, exec, node, input, w);
    match visit
    case Produced(_) => Some(node.name)
    case Broken(_) => None
    case Faulted(cause) =>
      if CatchOf(g, node).None? || depth == 0 then None
      else ProducedBy(env, exec, g, CatchOf(g, node).value, MergeErrorKey(input, Message(cause)), w1, depth - 1)
  }

  lemma VisitCompletes(env: Env, exec: string, node: Node, input: Payload, w: World)
    requires w.store.Mem?
    ensures var (w1, visit) := VisitState(env, exec, node, input, w);
      && w1.store.Mem? && !visit.Broken?
      && (visit.Produced? ==> CompletedWith(w1, exec, node.name, visit.output))
      && forall n :: IsCompleted(w1, exec, n) <==> IsCompleted(w, exec, n) || (visit.Produced? && n == node.name)
  {
    hide VisitState;
    VisitOnMemory(env, exec, node, input, w);
    StateKeyInjective(exec);
  }

  /** Executing a state completes exactly the state that produced its output, with that output; every other
      state is completed afterwards exactly when it was before. */
  lemma {:induction false} OnlyTheProducerCompletes(env: Env, exec: string, g: Graph, node: Node, input: Payload, w: World, depth: nat)
    requires w.store.Mem?
    ensures var (w', r) := ExecuteState(env, exec, g, node, input, w, depth);
            var producer := ProducedBy(env, exec, g, node, input, w, depth);
      && w'.store.Mem? && (r.Output? <==> producer.Some?)
      && (r.Output? ==> CompletedWith(w', exec, producer.value, r.output))
      && forall n :: IsCompleted(w', exec, n) <==> IsCompleted(w, exec, n) || producer == Some(n)
    decreases depth
  {
    hide VisitState, IsCompleted, CompletedWith;
    VisitCompletes(env, exec, node, input, w);
    var (w1, visit) := VisitState(env, exec, node, input, w);
    if visit.Faulted? && CatchOf(g, node).Some? && depth > 0 {
      OnlyTheProducerCompletes(env, exec, g, CatchOf(g, node).value, MergeErrorKey(input, Message(visit.cause)), w1, depth - 1);
    }
  }

  // ----- cancel and resume

  /** Every state the loop has got past produced its own output: no catch has stood in for it. */
  ghost predicate OwnOutputs(env: Env, exec: string, g: Graph, node: Node, input: Payload, w: World, patience: nat, depth: nat)
    decreases patience
  {
    patience == 0 ||
    (&& ProducedBy(env, exec, g, node, input, w, depth) == Some(node.name)
     && var (w1, r) := ExecuteState(env, exec, g, node, input, w, depth);
        var turn := TurnAfter(g, node, r);
        turn.GoOn? ==> OwnOutputs(env, exec, g, turn.next, turn.output, w1, patience - 1, depth))
  }

  /** Cancel a run at any state boundary that no catch helped to reach, and run again with the same execution
      and input: the second run ends in the very world, path and result of the uninterrupted one. */
  lemma {:induction false} CancelAndResume(env: Env, exec: string, g: Graph, node: Node, input: Payload, w: World,
                                           cut: nat, patience: nat, depth: nat)
    requires w.store.Mem? && cut <= patience
    ensures var x := RunFrom(env, exec, g, node, input, w, cut, depth);
            x.result == Stopped(Cancelled) && OwnOutputs(env, exec, g, node, input, w, cut, depth) ==>
            RunFrom(env, exec, g, node, input, x.world, patience, depth) == RunFrom(env, exec, g, node, input, w, patience, depth)
    decreases cut
  {
    hide ExecuteState, IsCompleted, CompletedWith, ProducedBy;
    var x := RunFrom(env, exec, g, node, input, w, cut, depth);
    if cut > 0 && x.result == Stopped(Cancelled) && OwnOutputs(env, exec, g, node, input, w, cut, depth) {
      OnlyTheProducerCompletes(env, exec, g, node, input, w, depth);
      var (w1, r) := ExecuteState(env, exec, g, node, input, w, depth);
      OnlyHandlerErrorsRaised(env, exec, g, node, input, w, depth);
      var turn := TurnAfter(g, node, r);
      var w' := RunFrom(env, exec, g, turn.next, r.output, w1, cut - 1, depth).world;
      assert w' == x.world;
      CancelAndResume(env, exec, g, turn.next, r.output, w1, cut - 1, patience - 1, depth);
      CompletionOutlivesRun(env, exec, g, turn.next, r.output, w1, cut - 1, depth, node.name, r.output);
      MemoHit(env, exec, g, node, input, w', depth, r.output);
    }
  }

  lemma {:induction false} CatchFreeOwnsOutputs(env: Env, exec: string, g: Graph, node: Node, input: Payload, w: World,
                                                patience: nat, depth: nat)
    requires w.store.Mem? && CatchFree(g) && EndsChain(g, node)
    requires RunFrom(env, exec, g, node, input, w, patience, depth).result == Stopped(Cancelled)
    ensures OwnOutputs(env, exec, g, node, input, w, patience, depth)
    decreases patience
  {
    hide ExecuteState, IsCompleted, CompletedWith, ProducedBy;
    if patience > 0 {
      OnlyTheProducerCompletes(env, exec, g, node, input, w, depth);
      OnlyHandlerErrorsRaised(env, exec, g, node, input, w, depth);
      ProducerWithoutCatch(env, exec, g, node, input, w, depth);
      var (w1, r) := ExecuteState(env, exec, g, node, input, w, depth);
      var turn := TurnAfter(g, node, r);
      CatchFreeOwnsOutputs(env, exec, g, turn.next, turn.output, w1, patience - 1, depth);
    }
  }

  lemma ProducerWithoutCatch(env: Env, exec: string, g: Graph, node: Node, input: Payload, w: World, depth: nat)
    requires w.store.Mem? && EndsChain(g, node)
    ensures var producer := ProducedBy(env, exec, g, node, input, w, depth); producer.None? || producer == Some(node.name)
  {
    hide VisitState;
    if node.task.kind == WaitKind { WaitsDoNotFail(env, exec, node, input, w); }
  }

  /** So for `Run` on a compiled workflow in which no catch can be taken, every cut is invisible. */
  lemma ResumeIsTransparent(env: Env, exec: string, wf: Workflow, input: Payload, w: World,
                            cut: nat, patience: nat, depth: nat)
    requires w.store.Mem? && Buildable(wf) && CatchFree(GraphOf(wf)) && cut <= patience
    requires Run(env, exec, GraphOf(wf), input, w, cut, depth).result == Stopped(Cancelled)
    ensures var w' := Run(env, exec, GraphOf(wf), input, w, cut, depth).world;
            Run(env, exec, GraphOf(wf), input, w', patience, depth) == Run(env, exec, GraphOf(wf), input, w, patience, depth)
  {
    hide RunFrom;
    BuiltGraphIsWellNamed(wf);
    CatchFreeOwnsOutputs(env, exec, GraphOf(wf), EntryNode(GraphOf(wf)).value, input, w, cut, depth);
    CancelAndResume(env, exec, GraphOf(wf), EntryNode(GraphOf(wf)).value, input, w, cut, patience, depth);
  }

  ghost predicate SilentSince(exec: string, state: string, r: StateRecord, from: nat, w: World) {
    Holds(exec, state, r, w) && forall i :: from <= i < |w.calls| ==> w.calls[i].state != state
  }

  ghost function SilentIn(exec: string, state: string, r: StateRecord, from: nat): World -> bool {
    w => SilentSince(exec, state, r, from, w)
  }

  /** A state once completed is never called again by any later in-process run, catches included. */
  lemma CompletedStateIsNeverCalled(exec: string, requests: seq<Request>, w: World, state: string, r: StateRecord)
    requires Holds(exec, state, r, w) && r.status == Completed
    ensures var w' := RunAll(exec, requests, w);
            forall i :: |w.calls| <= i < |w'.calls| ==> w'.calls[i].state != state
  {
    hide RunFrom, VisitState;
    var from := |w.calls|;
    forall env ensures KeptByVisits(SilentIn(exec, state, r, from), env, exec) {
      forall node, input, w | SilentSince(exec, state, r, from, w)
        ensures SilentSince(exec, state, r, from, VisitState(env, exec, node, input, w).0)
      {
        VisitOnMemory(env, exec, node, input, w);
        StateKeyInjective(exec);
      }
    }
    RunsKeep(SilentIn(exec, state, r, from), exec, requests, w);
  }

  /** Executing a state again leaves the world alone exactly when the state is itself completed. */
  lemma ReplayIsFreeExactly(env: Env, exec: string, g: Graph, node: Node, input: Payload, w: World, depth: nat)
    requires w.store.Mem?
    ensures ExecuteState(env, exec, g, node, input, w, depth).0 == w <==> IsCompleted(w, exec, node.name)
  {
    hide VisitState;
    VisitOnMemory(env, exec, node, input, w);
    if !IsCompleted(w, exec, node.name) {
      ExecutionEmits(env, exec, g, node, input, w, depth);
    }
  }

  /** The exact replay condition of an execution: running the state again, with whatever handlers, input and
      depth, returns the same result and changes nothing exactly when the state produced its own output. Past a
      taken catch it is executed again, for any catch relation. */
  lemma ReplayTransparentExactly(env: Env, exec: string, g: Graph, node: Node, input: Payload, w: World, depth: nat,
                                 env': Env, input': Payload, depth': nat)
    requires w.store.Mem?
    ensures var (w', r) := ExecuteState(env, exec, g, node, input, w, depth);
      && (ExecuteState(env', exec, g, node, input', w', depth') == (w', r)
          <==> ProducedBy(env, exec, g, node, input, w, depth) == Some(node.name))
      && (ExecuteState(env', exec, g, node, input', w', depth').0 == w'
          <==> ProducedBy(env, exec, g, node, input, w, depth) == Some(node.name))
  {
    hide ExecuteState, ProducedBy, IsCompleted, CompletedWith;
    var (w', r) := ExecuteState(env, exec, g, node, input, w, depth);
    var producer := ProducedBy(env, exec, g, node, input, w, depth);
    OnlyTheProducerCompletes(env, exec, g, node, input, w, depth);
    ReplayIsFreeExactly(env', exec, g, node, input', w', depth');
    if IsCompleted(w, exec, node.name) {
      CompletedProducesItself(env, exec, g, node, input, w, depth);
    }
    if producer == Some(node.name) {
      MemoHit(env', exec, g, node, input', w', depth', r.output);
    }
  }

  lemma CompletedProducesItself(env: Env, exec: string, g: Graph, node: Node, input: Payload, w: World, depth: nat)
    requires IsCompleted(w, exec, node.name)
    ensures ProducedBy(env, exec, g, node, input, w, depth) == Some(node.name)
  {
    hide VisitState;
    VisitOnMemory(env, exec, node, input, w);
  }

  lemma {:induction false} EventsOnlyGrow(env: Env, exec: string, g: Graph, node: Node, input: Payload, w: World, depth: nat)
    requires w.store.Mem?
    ensures |ExecuteState(env, exec, g, node, input, w, depth).0.events| >= |w.events|
    decreases depth
  {
    hide VisitState;
    VisitOnMemory(env, exec, node, input, w);
    VisitStaysInMemory(env, exec, node, input, w);
    var (w1, visit) := VisitState(env, exec, node, input, w);
    if visit.Faulted? && node.catch != "" && node.catch in g.nodes && depth > 0 {
      EventsOnlyGrow(env, exec, g, g.nodes[node.catch], MergeErrorKey(input, Message(visit.cause)), w1, depth - 1);
    }
  }

  lemma ExecutionEmits(env: Env, exec: string, g: Graph, node: Node, input: Payload, w: World, depth: nat)
    requires w.store.Mem? && !IsCompleted(w, exec, node.name)
    ensures |ExecuteState(env, exec, g, node, input, w, depth).0.events| > |w.events|
  {
    hide VisitState;
    VisitOnMemory(env, exec, node, input, w);
    VisitStaysInMemory(env, exec, node, input, w);
    var (w1, visit) := VisitState(env, exec, node, input, w);
    if visit.Faulted? && node.catch != "" && node.catch in g.nodes && depth > 0 {
      EventsOnlyGrow(env, exec, g, g.nodes[node.catch], MergeErrorKey(input, Message(visit.cause)), w1, depth - 1);
    }
  }
}
