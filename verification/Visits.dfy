/** What one visit of a state does on a memory store, in closed form: how often the handler is
    called, on what, what is emitted and which record remains. */
module Visits {
  import opened Types
  import opened Keys
  import opened Stores
  import opened Workflows
  import opened Engine

  // ----- the transitions a visit can emit

  function StartEvent(state: string): Event {
    Event(state, Pending, Running, "", Some(Pending), Some(Running))
  }

  function FailEvent(state: string, message: string): Event {
    Event(state, Running, Failed, message, Some(Running), Some(Failed))
  }

  function DoneEvent(state: string): Event {
    Event(state, Running, Completed, "", Some(Running), Some(Completed))
  }

  function RunningRecord(exec: string, state: string, input: Payload, attempt: int): StateRecord {
    Fresh(exec, state, input, attempt).(status := Running)
  }

  // ----- single effects on a memory store

  ghost predicate IsCompleted(w: World, exec: string, state: string) {
    w.store.Mem? && MemLookup(w.store.states, exec, state).Some?
    && MemLookup(w.store.states, exec, state).value.status == Completed
  }

  lemma WriteAheadOnMemory(w: World, exec: string, state: string, input: Payload, attempt: int)
    requires w.store.Mem? && !IsCompleted(w, exec, state)
    ensures Do(w, WriteAhead(exec, state, input, attempt)) ==
            (w.(store := Mem(w.store.states[StateKey(exec, state) := Fresh(exec, state, input, attempt)])), Done)
  {
  }

  /** A started, failed or completed record: the operation is accepted and reported as it happened. */
  lemma EmitOnMemory(w: World, op: Op, from: Status, to: Status, message: string, r: StateRecord, r': StateRecord)
    requires w.store.Mem? && MemLookup(w.store.states, op.exec, op.state) == Some(r)
    requires op.MarkRunning? || op.Complete? || op.Fail?
    requires RecordAfter(Some(r), op) == Some(r')
    ensures DoAndEmit(w, op, from, to, message) ==
            (World(Mem(w.store.states[StateKey(op.exec, op.state) := r']), w.calls,
                   w.events + [Event(op.state, from, to, message, Some(r.status), Some(r'.status))]),
             None)
  {
  }

  // ----- retry accounting

  /** The number of handler calls: up to the first success, at most `max`. The handler's answers are
      those of call numbers base, base + 1, ... */
  ghost function Tries(env: Env, base: nat, state: string, input: Payload, max: nat): (k: nat)
    requires max >= 1
    ensures 1 <= k <= max
    ensures forall c: nat :: base <= c < base + k - 1 ==> env.handler(c, state, input).Err?
    ensures k < max ==> env.handler(base + k - 1, state, input).Ok?
    decreases max
  {
    if max == 1 || env.handler(base, state, input).Ok? then 1
    else 1 + Tries(env, base + 1, state, input, max - 1)
  }

  ghost function CallsOf(exec: string, state: string, input: Payload, attempt: int, k: nat): (calls: seq<Call>)
    ensures |calls| == k
    ensures forall i :: 0 <= i < k ==>
              calls[i] == Call(state, input, attempt + i, "", Some(RunningRecord(exec, state, input, attempt + i)))
  {
    seq(k, i => Call(state, input, attempt + i, "", Some(RunningRecord(exec, state, input, attempt + i))))
  }

  function ErrorText(o: Outcome): string {
    match o
    case Ok(_) => ""
    case Err(message) => message
  }

  /** Each unsuccessful attempt but the last is reported failed and the next one started. */
  ghost function RetryEvents(env: Env, base: nat, state: string, input: Payload, k: nat): seq<Event>
    decreases k
  {
    if k <= 1 then []
    else
      [FailEvent(state, ErrorText(env.handler(base, state, input))), StartEvent(state)]
      + RetryEvents(env, base + 1, state, input, k - 1)
  }

  function ToAttempted(o: Outcome): Attempted {
    match o
    case Ok(output) => Succeeded(output)
    case Err(message) => Errored(HandlerError(message))
  }

  /** Between two attempts the failure is recorded, the next attempt written ahead and started. */
  lemma RetryStep(w: World, exec: string, state: string, input: Payload, attempt: nat, message: string)
    requires w.store.Mem?
    requires MemLookup(w.store.states, exec, state) == Some(RunningRecord(exec, state, input, attempt))
    ensures var (w2, failed) := RecordFailure(w, exec, state, message);
            var (w3, ahead) := Do(w2, WriteAhead(exec, state, input, attempt + 1));
            && failed.None? && ahead == Done
            && Start(w3, exec, state) ==
               (World(Mem(w.store.states[StateKey(exec, state) := RunningRecord(exec, state, input, attempt + 1)]),
                      w.calls, w.events + [FailEvent(state, message), StartEvent(state)]), None)
  {
    var m, key := w.store.states, StateKey(exec, state);
    var r := RunningRecord(exec, state, input, attempt);
    var failed := r.(status := Failed, error := message);
    EmitOnMemory(w, Fail(exec, state, message), Running, Failed, message, r, failed);
    var (w2, _) := RecordFailure(w, exec, state, message);
    WriteAheadOnMemory(w2, exec, state, input, attempt + 1);
    var (w3, _) := Do(w2, WriteAhead(exec, state, input, attempt + 1));
    EmitOnMemory(w3, MarkRunning(exec, state), Pending, Running, "", Fresh(exec, state, input, attempt + 1),
                 RunningRecord(exec, state, input, attempt + 1));
    assert w.events + [FailEvent(state, message)] + [StartEvent(state)]
        == w.events + [FailEvent(state, message), StartEvent(state)];
    assert m[key := failed][key := Fresh(exec, state, input, attempt + 1)]
            [key := RunningRecord(exec, state, input, attempt + 1)]
        == m[key := RunningRecord(exec, state, input, attempt + 1)];
  }

  /** `r` is what the retry loop entered at the given attempt comes to: Tries calls, numbered from that
      attempt, with all failures but the last reported, and the answer of the last call. */
  ghost predicate AttemptsClosed(env: Env, exec: string, state: string, input: Payload, w: World,
                                 attempt: nat, max: nat, r: (World, Attempted))
    requires attempt <= max && w.store.Mem?
  {
    var k := Tries(env, |w.calls|, state, input, max - attempt + 1);
    r ==
    (World(Mem(w.store.states[StateKey(exec, state) := RunningRecord(exec, state, input, attempt + k - 1)]),
           w.calls + CallsOf(exec, state, input, attempt, k),
           w.events + RetryEvents(env, |w.calls|, state, input, k)),
     ToAttempted(env.handler(|w.calls| + k - 1, state, input)))
  }

  /** The world at the next handler call, after an attempt that failed with attempts left. */
  ghost function Retried(env: Env, exec: string, state: string, input: Payload, w: World, attempt: nat): World
    requires w.store.Mem?
  {
    World(Mem(w.store.states[StateKey(exec, state) := RunningRecord(exec, state, input, attempt + 1)]),
          w.calls + CallsOf(exec, state, input, attempt, 1),
          w.events + [FailEvent(state, ErrorText(env.handler(|w.calls|, state, input))), StartEvent(state)])
  }

  lemma AttemptsUnfold(env: Env, exec: string, state: string, input: Payload, w: World, attempt: nat, max: nat)
    requires attempt < max && w.store.Mem?
    requires MemLookup(w.store.states, exec, state) == Some(RunningRecord(exec, state, input, attempt))
    requires env.handler(|w.calls|, state, input).Err?
    ensures Attempts(env, exec, state, input, w, attempt, max)
         == Attempts(env, exec, state, input, Retried(env, exec, state, input, w, attempt), attempt + 1, max)
  {
    hide DoAndEmit, Do, StateKey;
    var w1 := LogCall(w, exec, state, input, attempt, "");
    assert w1.calls == w.calls + CallsOf(exec, state, input, attempt, 1);
    RetryStep(w1, exec, state, input, attempt, env.handler(|w.calls|, state, input).message);
  }

  lemma Regroup<T>(a: seq<T>, b: seq<T>, c: seq<T>)
    ensures a + b + c == a + (b + c)
  {
  }

  lemma {:induction false} CallsSplit(exec: string, state: string, input: Payload, attempt: nat, k: nat)
    requires k >= 1
    ensures CallsOf(exec, state, input, attempt, 1) + CallsOf(exec, state, input, attempt + 1, k - 1)
         == CallsOf(exec, state, input, attempt, k)
  {
    var l, r, all := CallsOf(exec, state, input, attempt, 1), CallsOf(exec, state, input, attempt + 1, k - 1),
                     CallsOf(exec, state, input, attempt, k);
    assert forall i :: 1 <= i < k ==> (l + r)[i] == r[i - 1] == all[i];
    assert l + r == all;
  }

  lemma AttemptsFold(env: Env, exec: string, state: string, input: Payload, w: World, attempt: nat, max: nat,
                     r: (World, Attempted))
    requires attempt < max && w.store.Mem?
    requires env.handler(|w.calls|, state, input).Err?
    requires AttemptsClosed(env, exec, state, input, Retried(env, exec, state, input, w, attempt), attempt + 1, max, r)
    ensures AttemptsClosed(env, exec, state, input, w, attempt, max, r)
  {
    hide RunningRecord, FailEvent, StartEvent, StateKey;
    var w4 := Retried(env, exec, state, input, w, attempt);
    var k := Tries(env, |w.calls|, state, input, max - attempt + 1);
    assert k == 1 + Tries(env, |w4.calls|, state, input, max - attempt);
    CallsSplit(exec, state, input, attempt, k);
    Regroup(w.calls, CallsOf(exec, state, input, attempt, 1), CallsOf(exec, state, input, attempt + 1, k - 1));
    Regroup(w.events, [FailEvent(state, ErrorText(env.handler(|w.calls|, state, input))), StartEvent(state)],
            RetryEvents(env, |w4.calls|, state, input, k - 1));
    var last := RunningRecord(exec, state, input, attempt + k - 1);
    assert w4.store.states[StateKey(exec, state) := last] == w.store.states[StateKey(exec, state) := last];
  }

  /** The whole retry loop on a memory store whose record for the state is the started attempt. */
  lemma {:induction false} AttemptsOnMemory(env: Env, exec: string, state: string, input: Payload, w: World,
                                            attempt: nat, max: nat)
    requires attempt <= max && w.store.Mem?
    requires MemLookup(w.store.states, exec, state) == Some(RunningRecord(exec, state, input, attempt))
    ensures AttemptsClosed(env, exec, state, input, w, attempt, max,
                           Attempts(env, exec, state, input, w, attempt, max))
    decreases max - attempt
  {
    hide DoAndEmit, Do, StateKey;
    if attempt == max || env.handler(|w.calls|, state, input).Ok? {
      var m, key := w.store.states, StateKey(exec, state);
      assert m[key := RunningRecord(exec, state, input, attempt)] == m;
      assert w.calls + CallsOf(exec, state, input, attempt, 1)
          == LogCall(w, exec, state, input, attempt, "").calls;
      assert w.events + [] == w.events;
    } else {
      AttemptsUnfold(env, exec, state, input, w, attempt, max);
      AttemptsOnMemory(env, exec, state, input, Retried(env, exec, state, input, w, attempt), attempt + 1, max);
      AttemptsFold(env, exec, state, input, w, attempt, max, Attempts(env, exec, state, input, w, attempt, max));
    }
  }

  // ----- a whole visit

  /** What the work of a started state amounts to on a memory store, whatever else the store holds. */
  datatype Labour = Labour(calls: seq<Call>, events: seq<Event>, attempt: nat, outcome: Outcome)

  ghost function LabourOf(env: Env, exec: string, node: Node, input: Payload, base: nat): Labour {
    if node.task.kind == WaitKind then Labour([], [], 1, Ok(map[]))
    else if node.task.serviceTarget != "" && env.dispatcher.Some? then
      var target := node.task.serviceTarget;
      Labour([Call(node.name, input, 1, target, Some(RunningRecord(exec, node.name, input, 1)))], [], 1,
             env.dispatcher.value(base, node.name, target, input))
    else
      var k := Tries(env, base, node.name, input, MaxAttempts(node.retry));
      Labour(CallsOf(exec, node.name, input, 1, k), RetryEvents(env, base, node.name, input, k), k,
             env.handler(base + k - 1, node.name, input))
  }

  /** The record a visit leaves: completed with the output or failed with the error, under the attempt
      that decided it. */
  function FinalRecord(exec: string, state: string, input: Payload, attempt: int, outcome: Outcome): StateRecord {
    match outcome
    case Ok(output) => Fresh(exec, state, input, attempt).(status := Completed, output := output)
    case Err(message) => Fresh(exec, state, input, attempt).(status := Failed, error := message)
  }

  function FinalEvent(state: string, outcome: Outcome): Event {
    match outcome
    case Ok(_) => DoneEvent(state)
    case Err(message) => FailEvent(state, message)
  }

  function ToVisit(o: Outcome): Visit {
    match o
    case Ok(output) => Produced(output)
    case Err(message) => Faulted(HandlerError(message))
  }

  /** Where a visit that is not answered from the store leaves the world. */
  ghost function WorldAfter(env: Env, exec: string, node: Node, input: Payload, w: World): World
    requires w.store.Mem?
  {
    var l := LabourOf(env, exec, node, input, |w.calls|);
    World(Mem(w.store.states[StateKey(exec, node.name) := FinalRecord(exec, node.name, input, l.attempt, l.outcome)]),
          w.calls + l.calls,
          w.events + [StartEvent(node.name)] + l.events + [FinalEvent(node.name, l.outcome)])
  }

  lemma WorkOnMemory(env: Env, exec: string, node: Node, input: Payload, w: World)
    requires w.store.Mem?
    requires MemLookup(w.store.states, exec, node.name) == Some(RunningRecord(exec, node.name, input, 1))
    ensures var l := LabourOf(env, exec, node, input, |w.calls|);
            Work(env, exec, node, input, w) ==
            (World(Mem(w.store.states[StateKey(exec, node.name) := RunningRecord(exec, node.name, input, l.attempt)]),
                   w.calls + l.calls, w.events + l.events),
             ToAttempted(l.outcome))
  {
    hide Attempts, Tries, CallsOf, RetryEvents, StateKey;
    var m, key := w.store.states, StateKey(exec, node.name);
    assert m[key := RunningRecord(exec, node.name, input, 1)] == m;
    assert w.events + [] == w.events && w.calls + [] == w.calls;
    if node.task.kind != WaitKind && !(node.task.serviceTarget != "" && env.dispatcher.Some?) {
      AttemptsOnMemory(env, exec, node.name, input, w, 1, MaxAttempts(node.retry));
    }
  }

  lemma FinishOnMemory(w: World, exec: string, state: string, input: Payload, attempt: int, outcome: Outcome)
    requires w.store.Mem?
    requires MemLookup(w.store.states, exec, state) == Some(RunningRecord(exec, state, input, attempt))
    ensures (match outcome
             case Ok(output) => RecordCompletion(w, exec, state, output)
             case Err(message) => RecordFailure(w, exec, state, message)) ==
            (World(Mem(w.store.states[StateKey(exec, state) := FinalRecord(exec, state, input, attempt, outcome)]),
                   w.calls, w.events + [FinalEvent(state, outcome)]), None)
  {
    var r, r' := RunningRecord(exec, state, input, attempt), FinalRecord(exec, state, input, attempt, outcome);
    match outcome
    case Ok(output) => EmitOnMemory(w, Complete(exec, state, output), Running, Completed, "", r, r');
    case Err(message) => EmitOnMemory(w, Fail(exec, state, message), Running, Failed, message, r, r');
  }

  lemma CompletedVisit(env: Env, exec: string, node: Node, input: Payload, w: World)
    requires IsCompleted(w, exec, node.name)
    ensures VisitState(env, exec, node, input, w) ==
            (w, Produced(MemLookup(w.store.states, exec, node.name).value.output))
  {
    hide Work;
  }

  /** A completed state is answered from the store and changes nothing; any other is worked, and the
      only record that changes is its own. */
  lemma VisitOnMemory(env: Env, exec: string, node: Node, input: Payload, w: World)
    requires w.store.Mem?
    ensures IsCompleted(w, exec, node.name) ==>
              VisitState(env, exec, node, input, w) ==
              (w, Produced(MemLookup(w.store.states, exec, node.name).value.output))
    ensures !IsCompleted(w, exec, node.name) ==>
              VisitState(env, exec, node, input, w) ==
              (WorldAfter(env, exec, node, input, w),
               ToVisit(LabourOf(env, exec, node, input, |w.calls|).outcome))
  {
    hide Work, LabourOf, DoAndEmit, StateKey, MemApply;
    if IsCompleted(w, exec, node.name) {
      CompletedVisit(env, exec, node, input, w);
    } else {
      var m, key := w.store.states, StateKey(exec, node.name);
      var l := LabourOf(env, exec, node, input, |w.calls|);
      WriteAheadOnMemory(w, exec, node.name, input, 1);
      var (w1, _) := Do(w, WriteAhead(exec, node.name, input, 1));
      EmitOnMemory(w1, MarkRunning(exec, node.name), Pending, Running, "",
                   Fresh(exec, node.name, input, 1), RunningRecord(exec, node.name, input, 1));
      var (w2, _) := Start(w1, exec, node.name);
      WorkOnMemory(env, exec, node, input, w2);
      var w3 := Work(env, exec, node, input, w2).0;
      FinishOnMemory(w3, exec, node.name, input, l.attempt, l.outcome);
      assert m[key := Fresh(exec, node.name, input, 1)][key := RunningRecord(exec, node.name, input, 1)]
              [key := RunningRecord(exec, node.name, input, l.attempt)]
              [key := FinalRecord(exec, node.name, input, l.attempt, l.outcome)]
          == m[key := FinalRecord(exec, node.name, input, l.attempt, l.outcome)];
    }
  }

  // ----- what a caller sees of the retry policy

  ghost predicate Handled(env: Env, node: Node) {
    node.task.kind != WaitKind && (node.task.serviceTarget == "" || env.dispatcher.None?)
  }

  /** The handler is called once per attempt, numbered from 1, up to the first success and at most
      MaxAttempts (at least once); the record ends under the last attempt with that attempt's output or
      error. A state already completed is not called at all. */
  lemma RetryAccounting(env: Env, exec: string, node: Node, input: Payload, w: World)
    requires w.store.Mem? && Handled(env, node) && !IsCompleted(w, exec, node.name)
    ensures var base, w1 := |w.calls|, VisitState(env, exec, node, input, w).0;
      && w1.store.Mem? && w.calls <= w1.calls
      && var k := |w1.calls| - base;
         && 1 <= k <= MaxAttempts(node.retry)
         && (forall c: nat :: base <= c < base + k - 1 ==> env.handler(c, node.name, input).Err?)
         && (k < MaxAttempts(node.retry) ==> env.handler(base + k - 1, node.name, input).Ok?)
         && (forall i :: base <= i < base + k ==>
               w1.calls[i].state == node.name && w1.calls[i].input == input && w1.calls[i].attempt == i - base + 1)
         && MemLookup(w1.store.states, exec, node.name)
            == Some(FinalRecord(exec, node.name, input, k, env.handler(base + k - 1, node.name, input)))
  {
    hide VisitState;
    VisitOnMemory(env, exec, node, input, w);
  }

  /** A dispatched service step is called exactly once, whatever its retry policy says. */
  lemma DispatchIsNotRetried(env: Env, exec: string, node: Node, input: Payload, w: World)
    requires w.store.Mem? && !IsCompleted(w, exec, node.name)
    requires node.task.kind != WaitKind && node.task.serviceTarget != "" && env.dispatcher.Some?
    ensures var w1 := VisitState(env, exec, node, input, w).0;
      && w1.store.Mem? && |w1.calls| == |w.calls| + 1 && w.calls <= w1.calls
      && w1.calls[|w.calls|].(seen := None) == Call(node.name, input, 1, node.task.serviceTarget, None)
      && MemLookup(w1.store.states, exec, node.name)
         == Some(FinalRecord(exec, node.name, input, 1,
                             env.dispatcher.value(|w.calls|, node.name, node.task.serviceTarget, input)))
  {
    hide VisitState;
    VisitOnMemory(env, exec, node, input, w);
  }
}
