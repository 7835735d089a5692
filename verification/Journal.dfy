/** What every in-process run keeps, through retries, nested catches and any number of restarts:
    write-ahead discipline, a faithful event stream, final completions and a private footprint. */
module Journal {
  import opened Types
  import opened Keys
  import opened Stores
  import opened Workflows
  import opened Engine
  import opened Visits

  // ----- an invariant of visits is an invariant of runs

  ghost predicate KeptByVisits(P: World -> bool, env: Env, exec: string) {
    forall node, input, w :: P(w) && w.store.Mem? ==> P(VisitState(env, exec, node, input, w).0)
  }

  lemma VisitStaysInMemory(env: Env, exec: string, node: Node, input: Payload, w: World)
    requires w.store.Mem?
    ensures VisitState(env, exec, node, input, w).0.store.Mem?
    ensures !VisitState(env, exec, node, input, w).1.Broken?
    ensures VisitState(env, exec, node, input, w).1.Faulted? ==> VisitState(env, exec, node, input, w).1.cause.HandlerError?
  {
    hide VisitState;
    VisitOnMemory(env, exec, node, input, w);
  }

  lemma {:induction false} ExecuteStateKeeps(P: World -> bool, env: Env, exec: string, g: Graph, node: Node,
                                             input: Payload, w: World, depth: nat)
    requires KeptByVisits(P, env, exec)
    requires w.store.Mem? && P(w)
    ensures var w' := ExecuteState(env, exec, g, node, input, w, depth).0; w'.store.Mem? && P(w')
    decreases depth
  {
    hide VisitState;
    VisitStaysInMemory(env, exec, node, input, w);
    var (w1, visit) := VisitState(env, exec, node, input, w);
    if visit.Faulted? && node.catch != "" && node.catch in g.nodes && depth > 0 {
      ExecuteStateKeeps(P, env, exec, g, g.nodes[node.catch], MergeErrorKey(input, Message(visit.cause)), w1, depth - 1);
    }
  }

  lemma {:induction false} RunFromKeeps(P: World -> bool, env: Env, exec: string, g: Graph, node: Node,
                                        current: Payload, w: World, patience: nat, depth: nat)
    requires KeptByVisits(P, env, exec)
    requires w.store.Mem? && P(w)
    ensures var w' := RunFrom(env, exec, g, node, current, w, patience, depth).world; w'.store.Mem? && P(w')
    decreases patience
  {
    hide ExecuteState;
    if patience > 0 {
      ExecuteStateKeeps(P, env, exec, g, node, current, w, depth);
      var (w1, r) := ExecuteState(env, exec, g, node, current, w, depth);
      var turn := TurnAfter(g, node, r);
      if turn.GoOn? {
        RunFromKeeps(P, env, exec, g, turn.next, turn.output, w1, patience - 1, depth);
      }
    }
  }

  /** One call of `Run`; handlers, graph and input may differ from one call to the next. */
  datatype Request = Request(env: Env, graph: Graph, input: Payload, patience: nat, depth: nat)

  ghost function RunAll(exec: string, requests: seq<Request>, w: World): World {
    if requests == [] then w
    else
      var q := requests[0];
      RunAll(exec, requests[1..], Run(q.env, exec, q.graph, q.input, w, q.patience, q.depth).world)
  }

  lemma {:induction false} RunsKeep(P: World -> bool, exec: string, requests: seq<Request>, w: World)
    requires forall env :: KeptByVisits(P, env, exec)
    requires w.store.Mem? && P(w)
    ensures RunAll(exec, requests, w).store.Mem? && P(RunAll(exec, requests, w))
  {
    hide RunFrom;
    if requests != [] {
      var q := requests[0];
      if EntryNode(q.graph).Some? {
        RunFromKeeps(P, q.env, exec, q.graph, EntryNode(q.graph).value, q.input, w, q.patience, q.depth);
      }
      RunsKeep(P, exec, requests[1..], Run(q.env, exec, q.graph, q.input, w, q.patience, q.depth).world);
    }
  }

  // ----- write-ahead discipline

  /** At the moment of the call the store held the state as Running, with this input and attempt. */
  predicate WrittenAhead(exec: string, c: Call) {
    c.seen == Some(RunningRecord(exec, c.state, c.input, c.attempt))
  }

  predicate Disciplined(exec: string, w: World) {
    forall i | 0 <= i < |w.calls| :: WrittenAhead(exec, w.calls[i])
  }

  ghost function DisciplineIn(exec: string): World -> bool {
    w => Disciplined(exec, w)
  }

  lemma DisciplineKept(env: Env, exec: string)
    ensures KeptByVisits(DisciplineIn(exec), env, exec)
  {
    hide VisitState;
    forall node, input, w: World | Disciplined(exec, w) && w.store.Mem?
      ensures Disciplined(exec, VisitState(env, exec, node, input, w).0)
    {
      VisitOnMemory(env, exec, node, input, w);
    }
  }

  /** Every external call of every in-process run is made on a state recorded as Running with exactly
      the input and the attempt number of that call. */
  lemma WriteAheadDiscipline(exec: string, requests: seq<Request>, w: World)
    requires w.store.Mem? && Disciplined(exec, w)
    ensures Disciplined(exec, RunAll(exec, requests, w))
  {
    hide RunFrom;
    forall env ensures KeptByVisits(DisciplineIn(exec), env, exec) { DisciplineKept(env, exec); }
    RunsKeep(DisciplineIn(exec), exec, requests, w);
  }

  // ----- the event stream

  datatype Phase = Untouched | Active | LastFailed | LastCompleted | Garbled

  function Advance(p: Phase, e: Event): Phase {
    if e.from == Pending && e.to == Running && (p == Untouched || p == LastFailed) then Active
    else if e.from == Running && e.to == Failed && p == Active then LastFailed
    else if e.from == Running && e.to == Completed && p == Active then LastCompleted
    else Garbled
  }

  function PhaseOf(events: seq<Event>, state: string): Phase {
    if events == [] then Untouched
    else
      var e, p := events[|events| - 1], PhaseOf(events[..|events| - 1], state);
      if e.state == state then Advance(p, e) else p
  }

  lemma PhaseOfAppend(events: seq<Event>, e: Event, state: string)
    ensures PhaseOf(events + [e], state) ==
            if e.state == state then Advance(PhaseOf(events, state), e) else PhaseOf(events, state)
  {
    assert (events + [e])[..|events|] == events;
  }

  /** Failing an attempt and starting the next leaves the phase where it was. */
  lemma PhaseOfRound(events: seq<Event>, state: string, message: string, n: string)
    requires n == state ==> PhaseOf(events, n) == Active
    ensures PhaseOf(events + [FailEvent(state, message), StartEvent(state)], n) == PhaseOf(events, n)
  {
    hide PhaseOf;
    var f, s := FailEvent(state, message), StartEvent(state);
    PhaseOfAppend(events, f, n);
    PhaseOfAppend(events + [f], s, n);
    assert events + [f] + [s] == events + [f, s];
  }

  lemma {:induction false} PhaseOfRetries(env: Env, base: nat, events: seq<Event>, state: string, input: Payload, k: nat, n: string)
    requires n == state ==> PhaseOf(events, n) == Active
    ensures PhaseOf(events + RetryEvents(env, base, state, input, k), n) == PhaseOf(events, n)
    decreases k
  {
    hide PhaseOf, FailEvent, StartEvent, ErrorText;
    if k <= 1 {
      assert events + [] == events;
    } else {
      var message := ErrorText(env.handler(base, state, input));
      PhaseOfRound(events, state, message, n);
      PhaseOfRetries(env, base + 1, events + [FailEvent(state, message), StartEvent(state)], state, input, k - 1, n);
      Regroup(events, [FailEvent(state, message), StartEvent(state)], RetryEvents(env, base + 1, state, input, k - 1));
    }
  }

  /** The phase the stored status of a state stands for; a run leaves none Pending or Running. */
  ghost predicate PhaseMatches(exec: string, w: World, n: string)
    requires w.store.Mem?
  {
    match MemLookup(w.store.states, exec, n)
    case None => PhaseOf(w.events, n) == Untouched
    case Some(r) =>
      || (r.status == Failed && PhaseOf(w.events, n) == LastFailed)
      || (r.status == Completed && PhaseOf(w.events, n) == LastCompleted)
  }

  /** Each emitted transition reports the change the store had just made. */
  predicate Truthful(e: Event) {
    e.before == Some(e.from) && e.after == Some(e.to)
  }

  predicate AllTruthful(events: seq<Event>) {
    forall i | 0 <= i < |events| :: Truthful(events[i])
  }

  ghost predicate FaithfulEvents(exec: string, w: World) {
    w.store.Mem? && AllTruthful(w.events) && forall n :: PhaseMatches(exec, w, n)
  }

  lemma {:induction false} RetriesTruthful(env: Env, base: nat, state: string, input: Payload, k: nat)
    ensures AllTruthful(RetryEvents(env, base, state, input, k))
    decreases k
  {
    if k > 1 { RetriesTruthful(env, base + 1, state, input, k - 1); }
  }

  lemma PhaseAfterVisit(env: Env, exec: string, node: Node, input: Payload, w: World, n: string)
    requires FaithfulEvents(exec, w) && !IsCompleted(w, exec, node.name)
    ensures PhaseMatches(exec, WorldAfter(env, exec, node, input, w), n)
  {
    hide LabourOf, PhaseOf, RetryEvents, AllTruthful;
    assert PhaseMatches(exec, w, n);
    var l := LabourOf(env, exec, node, input, |w.calls|);
    LabourEvents(env, exec, node, input, |w.calls|);
    var started := w.events + [StartEvent(node.name)];
    PhaseOfAppend(w.events, StartEvent(node.name), n);
    PhaseOfRetries(env, |w.calls|, started, node.name, input, l.attempt, n);
    PhaseOfAppend(started + l.events, FinalEvent(node.name, l.outcome), n);
    StateKeyInjective(exec);
  }

  /** Whatever the kind of work, the transitions between start and end are those of the retries. */
  lemma LabourEvents(env: Env, exec: string, node: Node, input: Payload, base: nat)
    ensures var l := LabourOf(env, exec, node, input, base);
            l.events == RetryEvents(env, base, node.name, input, l.attempt)
  {
  }

  ghost function FaithfulIn(exec: string): World -> bool {
    w => FaithfulEvents(exec, w)
  }

  lemma FaithfulKept(env: Env, exec: string)
    ensures KeptByVisits(FaithfulIn(exec), env, exec)
  {
    hide VisitState;
    forall node, input, w: World | FaithfulEvents(exec, w) && w.store.Mem?
      ensures FaithfulEvents(exec, VisitState(env, exec, node, input, w).0)
    {
      VisitOnMemory(env, exec, node, input, w);
      if !IsCompleted(w, exec, node.name) {
        var l := LabourOf(env, exec, node, input, |w.calls|);
        RetriesTruthful(env, |w.calls|, node.name, input, l.attempt);
        forall n { PhaseAfterVisit(env, exec, node, input, w, n); }
      }
    }
  }

  // ----- the phase as a regular expression

  type Arrow = (Status, Status)

  function Word(events: seq<Event>, state: string): seq<Arrow> {
    if events == [] then []
    else
      var e, rest := events[|events| - 1], Word(events[..|events| - 1], state);
      if e.state == state then rest + [(e.from, e.to)] else rest
  }

  /** k failed attempts: (Pending→Running, Running→Failed)^k */
  function Rounds(k: nat): seq<Arrow> {
    if k == 0 then [] else Rounds(k - 1) + [(Pending, Running), (Running, Failed)]
  }

  ghost predicate InPhase(word: seq<Arrow>, p: Phase, k: nat) {
    match p
    case Untouched => word == []
    case Active => word == Rounds(k) + [(Pending, Running)]
    case LastFailed => k > 0 && word == Rounds(k)
    case LastCompleted => word == Rounds(k) + [(Pending, Running), (Running, Completed)]
    case Garbled => true
  }

  lemma {:induction false} PhaseIsWord(events: seq<Event>, state: string) returns (k: nat)
    ensures InPhase(Word(events, state), PhaseOf(events, state), k)
  {
    if events == [] {
      k := 0;
    } else {
      var e, front := events[|events| - 1], events[..|events| - 1];
      k := PhaseIsWord(front, state);
      var p, p' := PhaseOf(front, state), PhaseOf(events, state);
      if e.state == state && p' == LastFailed {
        k := k + 1;
        assert Rounds(k) == Rounds(k - 1) + [(Pending, Running)] + [(Running, Failed)];
      } else if e.state == state && p' == LastCompleted {
        assert Rounds(k) + [(Pending, Running)] + [(Running, Completed)]
            == Rounds(k) + [(Pending, Running), (Running, Completed)];
      } else if e.state == state && p == Untouched {
        k := 0;
        assert Rounds(0) + [(Pending, Running)] == [(Pending, Running)];
      }
    }
  }

  /** Over any number of runs of one execution: every transition reports the change just stored; each
      state's transitions are failed rounds, then at most one completed round; and what they end with
      is what the store holds. */
  lemma EventStreamIsFaithful(exec: string, requests: seq<Request>, w: World, state: string) returns (k: nat)
    requires FaithfulEvents(exec, w)
    ensures var w' := RunAll(exec, requests, w);
      && FaithfulEvents(exec, w')
      && match MemLookup(w'.store.states, exec, state)
         case None => Word(w'.events, state) == []
         case Some(r) =>
           || (r.status == Failed && k > 0 && Word(w'.events, state) == Rounds(k))
           || (r.status == Completed && Word(w'.events, state) == Rounds(k) + [(Pending, Running), (Running, Completed)])
  {
    hide RunFrom;
    forall env ensures KeptByVisits(FaithfulIn(exec), env, exec) { FaithfulKept(env, exec); }
    RunsKeep(FaithfulIn(exec), exec, requests, w);
    var w' := RunAll(exec, requests, w);
    assert PhaseMatches(exec, w', state);
    k := PhaseIsWord(w'.events, state);
  }

  /** A new execution starts faithful and disciplined, so the two theorems apply to it. */
  lemma FreshExecution(exec: string, m: States)
    requires forall n :: MemLookup(m, exec, n).None?
    ensures FaithfulEvents(exec, World(Mem(m), [], [])) && Disciplined(exec, World(Mem(m), [], []))
  {
  }

  // ----- completion is final, and runs touch only their own execution

  ghost predicate Holds(exec: string, state: string, r: StateRecord, w: World) {
    w.store.Mem? && MemLookup(w.store.states, exec, state) == Some(r)
  }

  ghost function HoldsIn(exec: string, state: string, r: StateRecord): World -> bool {
    w => Holds(exec, state, r, w)
  }

  lemma CompletionKept(env: Env, exec: string, state: string, r: StateRecord)
    requires r.status == Completed
    ensures KeptByVisits(HoldsIn(exec, state, r), env, exec)
  {
    hide VisitState;
    forall node, input, w | Holds(exec, state, r, w)
      ensures Holds(exec, state, r, VisitState(env, exec, node, input, w).0)
    {
      VisitOnMemory(env, exec, node, input, w);
      StateKeyInjective(exec);
    }
  }

  /** Once Completed, a record survives every later in-process run unchanged. */
  lemma CompletedIsFinal(exec: string, requests: seq<Request>, w: World, state: string, r: StateRecord)
    requires Holds(exec, state, r, w) && r.status == Completed
    ensures Holds(exec, state, r, RunAll(exec, requests, w))
  {
    hide RunFrom;
    forall env ensures KeptByVisits(HoldsIn(exec, state, r), env, exec) { CompletionKept(env, exec, state, r); }
    RunsKeep(HoldsIn(exec, state, r), exec, requests, w);
  }

  ghost predicate Agrees(key: string, m: States, w: World) {
    w.store.Mem? && (key in w.store.states <==> key in m) && (key in m ==> w.store.states[key] == m[key])
  }

  ghost function AgreesIn(key: string, m: States): World -> bool {
    w => Agrees(key, m, w)
  }

  /** A run changes no record outside its execution: another colon-free execution's records all stay. */
  lemma OtherExecutionsUntouched(exec: string, requests: seq<Request>, w: World, other: string, state: string)
    requires w.store.Mem? && ':' !in exec && ':' !in other && exec != other
    ensures RunAll(exec, requests, w).store.Mem?
    ensures MemLookup(RunAll(exec, requests, w).store.states, other, state) == MemLookup(w.store.states, other, state)
  {
    hide VisitState, RunFrom;
    var key, m := StateKey(other, state), w.store.states;
    forall env ensures KeptByVisits(AgreesIn(key, m), env, exec) {
      forall node, input, w | Agrees(key, m, w)
        ensures Agrees(key, m, VisitState(env, exec, node, input, w).0)
      {
        VisitOnMemory(env, exec, node, input, w);
        StateKeyInjectiveAcross(exec, node.name, other, state);
      }
    }
    RunsKeep(AgreesIn(key, m), exec, requests, w);
  }

  // ----- only expected failures

  predicate Expected(g: Graph, error: Error) {
    match error
    case HandlerError(_) => true
    case BadChoice(_, key) => key !in g.nodes
    case Cancelled => true
    case StoreFailure(_) => false
    case NoNext(_, _) => false
  }

  lemma {:induction false} OnlyHandlerErrorsRaised(env: Env, exec: string, g: Graph, node: Node, input: Payload,
                                                   w: World, depth: nat)
    requires w.store.Mem?
    ensures var (w', r) := ExecuteState(env, exec, g, node, input, w, depth);
            w'.store.Mem? && (r.Raised? ==> r.error.HandlerError?)
    decreases depth
  {
    hide VisitState;
    VisitStaysInMemory(env, exec, node, input, w);
    var (w1, visit) := VisitState(env, exec, node, input, w);
    if visit.Faulted? && node.catch != "" && node.catch in g.nodes && depth > 0 {
      OnlyHandlerErrorsRaised(env, exec, g, g.nodes[node.catch], MergeErrorKey(input, Message(visit.cause)), w1, depth - 1);
    }
  }

  lemma {:induction false} OnlyExpectedErrors(env: Env, exec: string, g: Graph, node: Node, current: Payload,
                                              w: World, patience: nat, depth: nat)
    requires w.store.Mem? && Closed(g) && node.name in g.nodes && g.nodes[node.name] == node && WellNamed(g)
    ensures var r := RunFrom(env, exec, g, node, current, w, patience, depth).result;
            r.Stopped? ==> Expected(g, r.error)
    decreases patience
  {
    hide ExecuteState;
    if patience > 0 {
      OnlyHandlerErrorsRaised(env, exec, g, node, current, w, depth);
      var (w1, r) := ExecuteState(env, exec, g, node, current, w, depth);
      var turn := TurnAfter(g, node, r);
      if turn.GoOn? {
        OnlyExpectedErrors(env, exec, g, turn.next, turn.output, w1, patience - 1, depth);
      }
    }
  }

  /** Every non-sentinel successor named by a step has a step of its own. */
  predicate NextTargetsHaveSteps(wf: Workflow) {
    forall i | 0 <= i < |wf.steps| :: !IsSentinel(wf.steps[i].next) ==> HasStep(wf.steps, wf.steps[i].next)
  }

  lemma TargetsWithStepsCloseTheGraph(wf: Workflow)
    requires Buildable(wf) && NextTargetsHaveSteps(wf)
    ensures Closed(GraphOf(wf))
  {
    var g := GraphOf(wf);
    forall n | n in g.nodes && !g.nodes[n].terminal
      ensures g.nodes[n].next in g.nodes
    {
      NodesOfLastStep(wf, wf.steps, n);
      NodesOfLastStep(wf, wf.steps, g.nodes[n].next);
    }
  }

  /** A run of a built workflow whose successors all have steps ends by success, cancellation, a handler
      error, an unknown choice key, or not at all: never by a store error or a missing successor. */
  lemma RunEndsAsExpected(env: Env, exec: string, wf: Workflow, input: Payload, w: World, patience: nat, depth: nat)
    requires w.store.Mem? && Buildable(wf) && NextTargetsHaveSteps(wf)
    ensures var r := Run(env, exec, GraphOf(wf), input, w, patience, depth).result;
            r.Stopped? ==> Expected(GraphOf(wf), r.error)
  {
    hide RunFrom;
    BuiltGraphIsWellNamed(wf);
    TargetsWithStepsCloseTheGraph(wf);
    OnlyExpectedErrors(env, exec, GraphOf(wf), EntryNode(GraphOf(wf)).value, input, w, patience, depth);
  }

  /** A store error stops the run with that very error, on either store; no catch sees it. */
  lemma StoreErrorsStopTheRun(env: Env, exec: string, g: Graph, node: Node, input: Payload, w: World, patience: nat, depth: nat)
    requires VisitState(env, exec, node, input, w).1.Broken?
    ensures var (w1, visit) := VisitState(env, exec, node, input, w);
            RunFrom(env, exec, g, node, input, w, patience + 1, depth)
            == Execution(w1, [node.name], Stopped(StoreFailure(visit.error)))
  {
    hide VisitState;
  }

  /** The answer of the retry loop is honest on either store: an output is what the last call returned; a
      handler's error is what the last of all allowed attempts returned; and a store error ended the loop
      before that. */
  lemma {:induction false} RetryAnswersHonestly(env: Env, exec: string, state: string, input: Payload, w: World, attempt: nat, max: nat)
    requires attempt <= max
    ensures var (w', r) := Attempts(env, exec, state, input, w, attempt, max);
            var made := |w'.calls| - |w.calls|;
      && 1 <= made <= max - attempt + 1
      && match r
         case Succeeded(output) => env.handler(|w'.calls| - 1, state, input) == Ok(output)
         case Errored(HandlerError(message)) => made == max - attempt + 1 && env.handler(|w'.calls| - 1, state, input) == Err(message)
         case Errored(StoreFailure(_)) => made < max - attempt + 1 && env.handler(|w'.calls| - 1, state, input).Err?
    decreases max - attempt
  {
    hide Apply, StatusOf, Lookup;
    var answer := env.handler(|w.calls|, state, input);
    if answer.Err? && attempt < max {
      var w1 := LogCall(w, exec, state, input, attempt, "");
      var (w2, failed) := RecordFailure(w1, exec, state, answer.message);
      var (w3, ahead) := Do(w2, WriteAhead(exec, state, input, attempt + 1));
      var (w4, started) := Start(w3, exec, state);
      assert |w4.calls| == |w1.calls| == |w.calls| + 1;
      if failed.None? && !ahead.Refused? && started.None? {
        RetryAnswersHonestly(env, exec, state, input, w4, attempt + 1, max);
      }
    }
  }

  /** A graph without its entry node is run to its end at once. */
  lemma MissingEntryFinishes(env: Env, exec: string, g: Graph, input: Payload, w: World, patience: nat, depth: nat)
    requires g.entry !in g.nodes
    ensures Run(env, exec, g, input, w, patience, depth) == Execution(w, [], Finished)
  {
  }

  /** The run started at this node ends right after it, for want of a successor. */
  ghost predicate Strands(env: Env, exec: string, g: Graph, node: Node, input: Payload, w: World) {
    w.store.Mem? && RunFrom(env, exec, g, node, input, w, 1, 0).result == Stopped(NoNext(node.name, node.next))
  }

  /** Validation alone does not give this: a node whose successor has a task but no step strands the run,
      and those are exactly the nodes that can. */
  lemma StrandedExactly(exec: string, g: Graph, node: Node, input: Payload)
    ensures (exists env, w :: Strands(env, exec, g, node, input, w))
        <==> !node.terminal && node.task.kind != ChoiceKind && node.next !in g.nodes
  {
    hide VisitState;
    if !node.terminal && node.task.kind != ChoiceKind && node.next !in g.nodes {
      var env := Env((c, s, i) => Ok(map[]), None);
      var w := World(Mem(map[]), [], []);
      VisitOnMemory(env, exec, node, input, w);
      assert Strands(env, exec, g, node, input, w);
    }
    forall env, w | Strands(env, exec, g, node, input, w)
      ensures !node.terminal && node.task.kind != ChoiceKind && node.next !in g.nodes
    {
      OnlyHandlerErrorsRaised(env, exec, g, node, input, w, 0);
    }
  }

  /** A step to either sentinel ends the run without an error: Fail does just what Succeed does. */
  lemma SentinelsFinish(wf: Workflow, i: nat, output: Payload)
    requires Buildable(wf) && i < |wf.steps| && (wf.steps[i].next == SUCCEED || wf.steps[i].next == FAIL)
    requires forall j :: i < j < |wf.steps| ==> wf.steps[j].name != wf.steps[i].name
    ensures var g, n := GraphOf(wf), wf.steps[i].name;
            n in g.nodes && TurnAfter(g, g.nodes[n], Output(output)) == Stop(Finished)
  {
    NodesOfLastStep(wf, wf.steps, wf.steps[i].name);
  }
}
