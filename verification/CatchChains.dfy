/** The recursion of `executeState` through catch handlers: when it ends, and what it computes. */
module CatchChains {
  import opened Types
  import opened Keys
  import opened Stores
  import opened Workflows
  import opened Engine
  import opened Visits
  import opened Journal

  /** Following catches from the node ends within k steps. */
  predicate ChainEnds(g: Graph, node: Node, k: nat)
    decreases k
  {
    EndsChain(g, node) || (k > 0 && ChainEnds(g, CatchOf(g, node).value, k - 1))
  }

  // ----- termination

  /** The state's whole catch recursion is seen within this depth. */
  ghost predicate Settles(env: Env, exec: string, g: Graph, node: Node, input: Payload, w: World, depth: nat) {
    ExecuteState(env, exec, g, node, input, w, depth).1 != Unfinished
  }

  lemma WaitsDoNotFail(env: Env, exec: string, node: Node, input: Payload, w: World)
    requires w.store.Mem? && node.task.kind == WaitKind
    ensures VisitState(env, exec, node, input, w).1.Produced? && VisitState(env, exec, node, input, w).0.calls == w.calls
  {
    hide VisitState;
    VisitOnMemory(env, exec, node, input, w);
  }

  lemma {:induction false} EndingChainSettles(env: Env, exec: string, g: Graph, node: Node, input: Payload, w: World, depth: nat)
    requires w.store.Mem? && ChainEnds(g, node, depth)
    ensures Settles(env, exec, g, node, input, w, depth)
    decreases depth
  {
    hide VisitState;
    VisitStaysInMemory(env, exec, node, input, w);
    if node.task.kind == WaitKind {
      WaitsDoNotFail(env, exec, node, input, w);
    }
    var (w1, visit) := VisitState(env, exec, node, input, w);
    if visit.Faulted? && !EndsChain(g, node) {
      EndingChainSettles(env, exec, g, CatchOf(g, node).value, MergeErrorKey(input, Message(visit.cause)), w1, depth - 1);
    }
  }

  ghost predicate NoneCompleted(exec: string, w: World) {
    w.store.Mem? && forall n :: !IsCompleted(w, exec, n)
  }

  function AlwaysFailing(): Env {
    Env((c, s, i) => Err("down"), None)
  }

  lemma FailingVisit(exec: string, node: Node, input: Payload, w: World)
    requires NoneCompleted(exec, w) && node.task.kind != WaitKind
    ensures var (w1, visit) := VisitState(AlwaysFailing(), exec, node, input, w);
            visit.Faulted? && NoneCompleted(exec, w1)
  {
    hide VisitState;
    VisitOnMemory(AlwaysFailing(), exec, node, input, w);
    StateKeyInjective(exec);
    var w1 := WorldAfter(AlwaysFailing(), exec, node, input, w);
    forall n ensures !IsCompleted(w1, exec, n) {
      assert !IsCompleted(w, exec, n);
    }
  }

  lemma {:induction false} EndlessChainStalls(exec: string, g: Graph, node: Node, input: Payload, w: World, depth: nat)
    requires NoneCompleted(exec, w) && !ChainEnds(g, node, depth)
    ensures !Settles(AlwaysFailing(), exec, g, node, input, w, depth)
    decreases depth
  {
    hide VisitState;
    FailingVisit(exec, node, input, w);
    var (w1, visit) := VisitState(AlwaysFailing(), exec, node, input, w);
    if depth > 0 {
      EndlessChainStalls(exec, g, CatchOf(g, node).value, MergeErrorKey(input, Message(visit.cause)), w1, depth - 1);
    }
  }

  /** A state settles within a depth whatever the handlers answer exactly when its catch chain ends
      within that depth. */
  lemma SettlesExactlyWhenChainEnds(exec: string, g: Graph, node: Node, input: Payload, depth: nat)
    ensures (forall env, w: World :: w.store.Mem? ==> Settles(env, exec, g, node, input, w, depth))
        <==> ChainEnds(g, node, depth)
  {
    hide Settles;
    if ChainEnds(g, node, depth) {
      forall env, w: World | w.store.Mem? ensures Settles(env, exec, g, node, input, w, depth) {
        EndingChainSettles(env, exec, g, node, input, w, depth);
      }
    } else {
      var w := World(Mem(map[]), [], []);
      EndlessChainStalls(exec, g, node, input, w, depth);
      assert !Settles(AlwaysFailing(), exec, g, node, input, w, depth);
    }
  }

  /** More depth changes nothing once a state has settled. */
  lemma {:induction false} SettledIsStable(env: Env, exec: string, g: Graph, node: Node, input: Payload, w: World, depth: nat, more: nat)
    requires Settles(env, exec, g, node, input, w, depth) && depth <= more
    ensures ExecuteState(env, exec, g, node, input, w, more) == ExecuteState(env, exec, g, node, input, w, depth)
    decreases depth
  {
    hide VisitState;
    var (w1, visit) := VisitState(env, exec, node, input, w);
    if visit.Faulted? && CatchOf(g, node).Some? {
      SettledIsStable(env, exec, g, CatchOf(g, node).value, MergeErrorKey(input, Message(visit.cause)), w1, depth - 1, more - 1);
    }
  }

  // ----- acyclic catches

  /** The catch rank falls along every catch that can be taken. */
  predicate Ranked(g: Graph, rank: map<string, nat>) {
    && (forall n :: n in g.nodes ==> n in rank)
    && forall n :: n in g.nodes && !EndsChain(g, g.nodes[n]) ==> rank[g.nodes[n].catch] < rank[n]
  }

  lemma {:induction false} RankBoundsChain(g: Graph, rank: map<string, nat>, name: string)
    requires Ranked(g, rank) && name in g.nodes
    ensures ChainEnds(g, g.nodes[name], rank[name])
    decreases rank[name]
  {
    var node := g.nodes[name];
    if !EndsChain(g, node) {
      RankBoundsChain(g, rank, node.catch);
      ChainEndsMonotone(g, g.nodes[node.catch], rank[node.catch], rank[name] - 1);
    }
  }

  lemma {:induction false} ChainEndsMonotone(g: Graph, node: Node, k: nat, more: nat)
    requires ChainEnds(g, node, k) && k <= more
    ensures ChainEnds(g, node, more)
    decreases k
  {
    if !EndsChain(g, node) {
      ChainEndsMonotone(g, CatchOf(g, node).value, k - 1, more - 1);
    }
  }

  /** The length of an ending chain. */
  ghost function ChainLength(g: Graph, node: Node, k: nat): (n: nat)
    requires ChainEnds(g, node, k)
    ensures n <= k && ChainEnds(g, node, n)
    decreases k
  {
    if EndsChain(g, node) then 0 else 1 + ChainLength(g, CatchOf(g, node).value, k - 1)
  }

  lemma {:induction false} ChainLengthUnique(g: Graph, node: Node, k: nat, j: nat)
    requires ChainEnds(g, node, k) && ChainEnds(g, node, j)
    ensures ChainLength(g, node, k) == ChainLength(g, node, j)
    decreases k
  {
    if !EndsChain(g, node) {
      ChainLengthUnique(g, CatchOf(g, node).value, k - 1, j - 1);
    }
  }

  /** The catch targets along an ending chain, in order. */
  ghost function Targets(g: Graph, node: Node, k: nat): (s: seq<string>)
    requires ChainEnds(g, node, k)
    ensures |s| == ChainLength(g, node, k)
    ensures forall i :: 0 <= i < |s| ==>
              s[i] in g.nodes && ChainEnds(g, g.nodes[s[i]], k) && ChainLength(g, g.nodes[s[i]], k) == |s| - 1 - i
    decreases k
  {
    if EndsChain(g, node) then []
    else
      var next := CatchOf(g, node).value;
      var rest := Targets(g, next, k - 1);
      ChainEndsMonotone(g, next, k - 1, k);
      ChainLengthUnique(g, next, k - 1, k);
      assert forall i :: 0 <= i < |rest| ==> ChainEnds(g, g.nodes[rest[i]], k) && ChainLength(g, g.nodes[rest[i]], k) == |rest| - 1 - i by {
        forall i | 0 <= i < |rest|
          ensures ChainEnds(g, g.nodes[rest[i]], k) && ChainLength(g, g.nodes[rest[i]], k) == |rest| - 1 - i
        {
          ChainEndsMonotone(g, g.nodes[rest[i]], k - 1, k);
          ChainLengthUnique(g, g.nodes[rest[i]], k - 1, k);
        }
      }
      [node.catch] + rest
  }

  /** An ending chain visits each node at most once, so as many nested catches as there are nodes
      always suffice to tell. */
  lemma ChainEndsWithinNodeCount(g: Graph, node: Node, k: nat)
    requires ChainEnds(g, node, k)
    ensures ChainEnds(g, node, |g.nodes|)
  {
    var s := Targets(g, node, k);
    forall i, j | 0 <= i < j < |s| ensures s[i] != s[j] {
      assert ChainLength(g, g.nodes[s[i]], k) != ChainLength(g, g.nodes[s[j]], k);
    }
    DistinctWithinSet(s, g.nodes.Keys);
    ChainEndsMonotone(g, node, ChainLength(g, node, k), |g.nodes|);
  }

  // ----- the recursion as a walk

  /** The nodes of a catch chain, first to last. */
  predicate IsChain(g: Graph, chain: seq<Node>) {
    && chain != []
    && (forall i :: 0 <= i < |chain| - 1 ==> !EndsChain(g, chain[i]) && CatchOf(g, chain[i]) == Some(chain[i + 1]))
    && EndsChain(g, chain[|chain| - 1])
  }

  /** The walk's input at a position: the original input, under `_error` the latest message. */
  function InputAt(input: Payload, last: Option<string>): (r: Payload)
    ensures last.None? ==> r == input
    ensures last.Some? ==> ERROR_KEY in r && r[ERROR_KEY] == Text(last.value) && r - {ERROR_KEY} == input - {ERROR_KEY}
  {
    match last
    case None => input
    case Some(message) => MergeErrorKey(input, message)
  }

  /** Walk along the chain to the first success or past its end. */
  ghost function Walk(env: Env, exec: string, chain: seq<Node>, i: nat, input: Payload, last: Option<string>, w: World): (World, StateResult)
    requires i <= |chain| && (i == |chain| ==> last.Some?)
    decreases |chain| - i
  {
    if i == |chain| then (w, Raised(HandlerError(last.value)))
    else
      var (w1, visit) := VisitState(env, exec, chain[i], InputAt(input, last), w);
      match visit
      case Produced(output) => (w1, Output(output))
      case Broken(error) => (w1, Raised(StoreFailure(error)))
      case Faulted(cause) => Walk(env, exec, chain, i + 1, input, Some(Message(cause)), w1)
  }

  lemma {:induction false} RecursionIsWalk(env: Env, exec: string, g: Graph, chain: seq<Node>, i: nat, input: Payload,
                                           last: Option<string>, w: World, depth: nat)
    requires w.store.Mem? && IsChain(g, chain) && i < |chain| && |chain| - 1 - i <= depth
    ensures ExecuteState(env, exec, g, chain[i], InputAt(input, last), w, depth)
         == Walk(env, exec, chain, i, input, last, w)
    decreases depth
  {
    hide VisitState;
    var node, received := chain[i], InputAt(input, last);
    VisitStaysInMemory(env, exec, node, received, w);
    var (w1, visit) := VisitState(env, exec, node, received, w);
    if visit.Faulted? {
      var message := Message(visit.cause);
      assert MergeErrorKey(received, message) == InputAt(input, Some(message));
      if i + 1 < |chain| {
        RecursionIsWalk(env, exec, g, chain, i + 1, input, Some(message), w1, depth - 1);
      } else if node.task.kind == WaitKind {
        WaitsDoNotFail(env, exec, node, received, w);
      }
    }
  }

  /** With an ending chain, `executeState` is the walk along it, and the loop of `Run` then continues from
      the node that failed, not from the handler that recovered, with the recovery output as input. */
  lemma CatchChainWalk(env: Env, exec: string, g: Graph, chain: seq<Node>, input: Payload, w: World, patience: nat, depth: nat)
    requires w.store.Mem? && IsChain(g, chain) && |chain| - 1 <= depth
    ensures var (w1, r) := Walk(env, exec, chain, 0, input, None, w);
      && ExecuteState(env, exec, g, chain[0], input, w, depth) == (w1, r)
      && (r.Output? && Next(g, chain[0], ChoiceKey(chain[0], r.output)).Goto? ==>
            var next := Next(g, chain[0], ChoiceKey(chain[0], r.output)).node;
            var rest := RunFrom(env, exec, g, next, r.output, w1, patience, depth);
            RunFrom(env, exec, g, chain[0], input, w, patience + 1, depth) == rest.(path := [chain[0].name] + rest.path))
  {
    hide VisitState;
    RecursionIsWalk(env, exec, g, chain, 0, input, None, w, depth);
  }

  // ----- a choice goes where its output says

  /** What an output says to a choice: the text under `__choice__`, or nothing. */
  ghost predicate Says(output: Payload, target: string) {
    CHOICE_KEY in output && output[CHOICE_KEY] == Text(target)
  }

  /** The loop at a choice that yielded an output, by whatever state of its catch chain: it goes on at the
      state the output names; a name without a node, and an output that names none, is an unknown state. The
      choice's own successor plays no part. */
  lemma ChoiceGoesWhereItSays(env: Env, exec: string, g: Graph, node: Node, input: Payload, w: World,
                              patience: nat, depth: nat, target: string)
    requires node.task.kind == ChoiceKind && !node.terminal
    requires ExecuteState(env, exec, g, node, input, w, depth).1.Output?
    ensures var (w1, r) := ExecuteState(env, exec, g, node, input, w, depth);
            var run := RunFrom(env, exec, g, node, input, w, patience + 1, depth);
      && (Says(r.output, target) && target in g.nodes ==>
            var rest := RunFrom(env, exec, g, g.nodes[target], r.output, w1, patience, depth);
            run == rest.(path := [node.name] + rest.path))
      && (Says(r.output, target) && target !in g.nodes ==>
            run == Execution(w1, [node.name], Stopped(BadChoice(node.name, target))))
      && ((forall t :: !Says(r.output, t)) && "" !in g.nodes ==>
            run == Execution(w1, [node.name], Stopped(BadChoice(node.name, ""))))
  {
    hide ExecuteState;
    var (w1, r) := ExecuteState(env, exec, g, node, input, w, depth);
    if CHOICE_KEY in r.output && r.output[CHOICE_KEY].Text? {
      assert Says(r.output, r.output[CHOICE_KEY].s);
    }
  }

  /** So a failed choice whose catch recovers without naming a state ends the run all the same: with an
      unknown-state error for the choice, after the catch has completed. */
  lemma RecoveredChoiceIsLost(env: Env, exec: string, g: Graph, node: Node, input: Payload, w: World,
                              patience: nat, depth: nat)
    requires w.store.Mem? && node.task.kind == ChoiceKind && !node.terminal && CatchOf(g, node).Some? && "" !in g.nodes
    ensures var (w1, visit) := VisitState(env, exec, node, input, w);
            var handler := CatchOf(g, node).value;
            visit.Faulted? ==>
              var received := InputAt(input, Some(Message(visit.cause)));
              var (w2, recovery) := VisitState(env, exec, handler, received, w1);
              recovery.Produced? && (forall t :: !Says(recovery.output, t)) ==>
                && RunFrom(env, exec, g, node, input, w, patience + 1, depth + 1)
                   == Execution(w2, [node.name], Stopped(BadChoice(node.name, "")))
                && IsCompleted(w2, exec, handler.name)
  {
    hide VisitState;
    VisitStaysInMemory(env, exec, node, input, w);
    var (w1, visit) := VisitState(env, exec, node, input, w);
    if visit.Faulted? {
      var handler, received := CatchOf(g, node).value, InputAt(input, Some(Message(visit.cause)));
      VisitOnMemory(env, exec, handler, received, w1);
      var (w2, recovery) := VisitState(env, exec, handler, received, w1);
      if recovery.Produced? {
        assert ExecuteState(env, exec, g, node, input, w, depth + 1) == (w2, Output(recovery.output));
        ChoiceGoesWhereItSays(env, exec, g, node, input, w, patience, depth + 1, "");
      }
    }
  }

  /** The chain of an ending catch relation. */
  function ChainOf(g: Graph, node: Node, k: nat): (chain: seq<Node>)
    requires ChainEnds(g, node, k)
    ensures IsChain(g, chain) && chain[0] == node && |chain| - 1 <= k
    decreases k
  {
    if EndsChain(g, node) then [node] else [node] + ChainOf(g, CatchOf(g, node).value, k - 1)
  }

  /** Acyclic catches, end to end: whatever the handlers answer, executing a state is the walk along its own
      catch chain, no longer than its rank, and the loop of `Run` goes on from the state itself with the
      output of whichever state of the chain recovered; when none did, the run stops with the last message. */
  lemma AcyclicCatchesWalk(env: Env, exec: string, g: Graph, rank: map<string, nat>, name: string, input: Payload, w: World,
                           patience: nat, depth: nat)
    requires w.store.Mem? && Ranked(g, rank) && name in g.nodes && rank[name] <= depth
    ensures ChainEnds(g, g.nodes[name], rank[name])
    ensures var node := g.nodes[name];
            var (w1, r) := Walk(env, exec, ChainOf(g, node, rank[name]), 0, input, None, w);
            var run := RunFrom(env, exec, g, node, input, w, patience + 1, depth);
      && ExecuteState(env, exec, g, node, input, w, depth) == (w1, r)
      && r != Unfinished && w1.store.Mem?
      && (r.Raised? ==> r.error.HandlerError? && run == Execution(w1, [node.name], Stopped(r.error)))
      && (r.Output? && Next(g, node, ChoiceKey(node, r.output)).Goto? ==>
            var rest := RunFrom(env, exec, g, Next(g, node, ChoiceKey(node, r.output)).node, r.output, w1, patience, depth);
            run == rest.(path := [node.name] + rest.path))
  {
    hide VisitState, Walk, ExecuteState;
    var node := g.nodes[name];
    RankBoundsChain(g, rank, name);
    CatchChainWalk(env, exec, g, ChainOf(g, node, rank[name]), input, w, patience, depth);
    OnlyHandlerErrorsRaised(env, exec, g, node, input, w, depth);
    ChainEndsMonotone(g, node, rank[name], depth);
    EndingChainSettles(env, exec, g, node, input, w, depth);
  }

  // ----- what the handlers of a chain receive

  /** Any external call made while a state and its catches execute gets the state's input, up to `_error`. */
  ghost predicate CallsCarry(calls: seq<Call>, from: nat, input: Payload) {
    forall i :: from <= i < |calls| ==> calls[i].input - {ERROR_KEY} == input - {ERROR_KEY}
  }

  lemma VisitCallsCarry(env: Env, exec: string, node: Node, input: Payload, w: World)
    requires w.store.Mem?
    ensures var w1 := VisitState(env, exec, node, input, w).0;
            w.calls <= w1.calls && CallsCarry(w1.calls, |w.calls|, input)
  {
    hide VisitState;
    VisitOnMemory(env, exec, node, input, w);
  }

  lemma {:induction false} CatchInputs(env: Env, exec: string, g: Graph, node: Node, input: Payload, w: World, depth: nat)
    requires w.store.Mem?
    ensures var w' := ExecuteState(env, exec, g, node, input, w, depth).0;
            w.calls <= w'.calls && CallsCarry(w'.calls, |w.calls|, input)
    decreases depth
  {
    hide VisitState;
    VisitStaysInMemory(env, exec, node, input, w);
    VisitCallsCarry(env, exec, node, input, w);
    var (w1, visit) := VisitState(env, exec, node, input, w);
    if visit.Faulted? && CatchOf(g, node).Some? && depth > 0 {
      var received := MergeErrorKey(input, Message(visit.cause));
      CatchInputs(env, exec, g, CatchOf(g, node).value, received, w1, depth - 1);
      assert received - {ERROR_KEY} == input - {ERROR_KEY};
    }
  }
}
