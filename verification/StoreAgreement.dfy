/** The executor cannot tell the two stores apart on a catch-free execution, and where it can. */
module StoreAgreement {
  import opened Types
  import opened Keys
  import opened Stores
  import opened MongoRefinement
  import opened Workflows
  import opened Engine
  import opened Visits
  import opened Journal
  import opened CatchChains
  import opened Memoisation

  // ----- twin worlds

  /** The same calls; the records seen differ only in how the store represents outputs. */
  predicate SameCalls(a: seq<Call>, b: seq<Call>) {
    |a| == |b| && forall i :: 0 <= i < |a| ==> a[i].(seen := None) == b[i].(seen := None)
  }

  ghost predicate Twins(wm: World, wd: World) {
    && wm.store.Mem? && wd.store.Doc?
    && Faithful(wd.store.codec)
    && Related(wd.store.codec, wm.store.states, wd.store.mongo)
    && SameCalls(wm.calls, wd.calls)
    && wm.events == wd.events
  }

  /** The document store's configuration, which no operation changes. */
  datatype Site = Site(codec: Codec, bucket: Option<string>)

  function SiteOf(w: World): Site
    requires w.store.Doc?
  {
    Site(w.store.codec, w.store.mongo.bucket)
  }

  predicate Keepable(site: Site, output: Payload) {
    Storable(site.codec, site.bucket, output) && !Mistakable(site.codec, output)
  }

  /** Everything the handlers and the dispatcher produce can be kept by the document store. */
  ghost predicate KeepableEnv(env: Env, site: Site) {
    && Keepable(site, map[])
    && (forall c, s, i :: env.handler(c, s, i).Ok? ==> Keepable(site, env.handler(c, s, i).output))
    && (env.dispatcher.Some? ==>
          forall c, s, t, i :: env.dispatcher.value(c, s, t, i).Ok? ==> Keepable(site, env.dispatcher.value(c, s, t, i).output))
  }

  lemma TwinStatus(wm: World, wd: World, exec: string, state: string)
    requires Twins(wm, wd) && CleanId(exec)
    ensures StatusOf(wm.store, exec, state) == StatusOf(wd.store, exec, state)
  {
    hide MongoLookup, MemLookup;
    assert Matches(wd.store.codec, wm.store.states, wd.store.mongo, exec, state);
  }

  lemma TwinDo(wm: World, wd: World, op: Op)
    requires Twins(wm, wd) && CleanId(op.exec)
    requires Admissible(wd.store.codec, wd.store.mongo.bucket, wm.store.states, op)
    ensures var ((m1, rm), (d1, rd)) := (Do(wm, op), Do(wd, op));
            rm == rd && Twins(m1, d1) && SiteOf(d1) == SiteOf(wd)
  {
    InStepExactlyWhenAdmissible(wd.store.codec, wm.store.states, wd.store.mongo, op);
    BucketIsFixed(wd.store.codec, wd.store.mongo, op);
    hide Related, MongoApply, MemApply, Admissible, Faithful;
  }

  lemma TwinEmit(wm: World, wd: World, op: Op, from: Status, to: Status, message: string)
    requires Twins(wm, wd) && CleanId(op.exec)
    requires Admissible(wd.store.codec, wd.store.mongo.bucket, wm.store.states, op)
    ensures var ((m1, rm), (d1, rd)) := (DoAndEmit(wm, op, from, to, message), DoAndEmit(wd, op, from, to, message));
            rm == rd && Twins(m1, d1) && SiteOf(d1) == SiteOf(wd)
  {
    hide Related, MongoApply, MemApply, Admissible, Faithful, Lookup, Do;
    TwinStatus(wm, wd, op.exec, op.state);
    TwinDo(wm, wd, op);
    var ((m1, _), (d1, _)) := (Do(wm, op), Do(wd, op));
    TwinStatus(m1, d1, op.exec, op.state);
  }

  lemma TwinCall(wm: World, wd: World, exec: string, state: string, input: Payload, attempt: int, service: string)
    requires Twins(wm, wd)
    ensures Twins(LogCall(wm, exec, state, input, attempt, service), LogCall(wd, exec, state, input, attempt, service))
  {
    hide Related, Lookup, Faithful;
  }

  // ----- the retry loop

  lemma TwinRetryStep(wm: World, wd: World, exec: string, state: string, input: Payload, attempt: nat, message: string)
    requires Twins(wm, wd) && CleanId(exec)
    requires MemLookup(wm.store.states, exec, state) == Some(RunningRecord(exec, state, input, attempt))
    ensures var ((m2, fm), (d2, fd)) := (RecordFailure(wm, exec, state, message), RecordFailure(wd, exec, state, message));
            var op := WriteAhead(exec, state, input, attempt + 1);
            var ((m3, am), (d3, ad)) := (Do(m2, op), Do(d2, op));
            var ((m4, sm), (d4, sd)) := (Start(m3, exec, state), Start(d3, exec, state));
            && fm.None? && fd.None? && am == Done && ad == Done && sm.None? && sd.None?
            && Twins(m4, d4) && SiteOf(d4) == SiteOf(wd)
            && MemLookup(m4.store.states, exec, state) == Some(RunningRecord(exec, state, input, attempt + 1))
  {
    RetryStep(wm, exec, state, input, attempt, message);
    EmitOnMemory(wm, Fail(exec, state, message), Running, Failed, message, RunningRecord(exec, state, input, attempt),
                 RunningRecord(exec, state, input, attempt).(status := Failed, error := message));
    hide Twins, DoAndEmit, Do, SiteOf;
    TwinEmit(wm, wd, Fail(exec, state, message), Running, Failed, message);
    var ((m2, _), (d2, _)) := (RecordFailure(wm, exec, state, message), RecordFailure(wd, exec, state, message));
    var op := WriteAhead(exec, state, input, attempt + 1);
    TwinDo(m2, d2, op);
    var ((m3, _), (d3, _)) := (Do(m2, op), Do(d2, op));
    TwinEmit(m3, d3, MarkRunning(exec, state), Pending, Running, "");
  }

  lemma {:induction false} TwinAttempts(env: Env, exec: string, state: string, input: Payload, wm: World, wd: World,
                                        attempt: nat, max: nat)
    requires attempt <= max && Twins(wm, wd) && CleanId(exec)
    requires MemLookup(wm.store.states, exec, state) == Some(RunningRecord(exec, state, input, attempt))
    ensures var ((m1, rm), (d1, rd)) := (Attempts(env, exec, state, input, wm, attempt, max),
                                         Attempts(env, exec, state, input, wd, attempt, max));
            rm == rd && Twins(m1, d1) && SiteOf(d1) == SiteOf(wd)
    decreases max - attempt
  {
    hide Related, Faithful, DoAndEmit, Do;
    var m1, d1 := LogCall(wm, exec, state, input, attempt, ""), LogCall(wd, exec, state, input, attempt, "");
    TwinCall(wm, wd, exec, state, input, attempt, "");
    var answer := env.handler(|wm.calls|, state, input);
    if answer.Err? && attempt < max {
      TwinRetryStep(m1, d1, exec, state, input, attempt, answer.message);
      var ((m2, _), (d2, _)) := (RecordFailure(m1, exec, state, answer.message), RecordFailure(d1, exec, state, answer.message));
      var op := WriteAhead(exec, state, input, attempt + 1);
      var ((m3, _), (d3, _)) := (Do(m2, op), Do(d2, op));
      var ((m4, _), (d4, _)) := (Start(m3, exec, state), Start(d3, exec, state));
      TwinAttempts(env, exec, state, input, m4, d4, attempt + 1, max);
    }
  }

  /** What the work of a state yields: on a keepable environment its output can be stored. */
  lemma {:induction false} AttemptsYieldKeepable(env: Env, exec: string, state: string, input: Payload, w: World,
                                                 attempt: nat, max: nat, site: Site)
    requires attempt <= max && KeepableEnv(env, site)
    ensures var r := Attempts(env, exec, state, input, w, attempt, max).1;
            r.Succeeded? ==> Keepable(site, r.output)
    decreases max - attempt
  {
    hide DoAndEmit, Do, LogCall;
    var w1 := LogCall(w, exec, state, input, attempt, "");
    var answer := env.handler(|w.calls|, state, input);
    if answer.Err? && attempt < max {
      var (w2, _) := RecordFailure(w1, exec, state, answer.message);
      var (w3, _) := Do(w2, WriteAhead(exec, state, input, attempt + 1));
      var (w4, _) := Start(w3, exec, state);
      AttemptsYieldKeepable(env, exec, state, input, w4, attempt + 1, max, site);
    }
  }

  lemma TwinWork(env: Env, exec: string, node: Node, input: Payload, wm: World, wd: World)
    requires Twins(wm, wd) && CleanId(exec) && KeepableEnv(env, SiteOf(wd))
    requires MemLookup(wm.store.states, exec, node.name) == Some(RunningRecord(exec, node.name, input, 1))
    ensures var ((m1, rm), (d1, rd)) := (Work(env, exec, node, input, wm), Work(env, exec, node, input, wd));
            && rm == rd && Twins(m1, d1) && SiteOf(d1) == SiteOf(wd)
            && (rm.Succeeded? ==> Keepable(SiteOf(wd), rm.output))
  {
    hide Related, Faithful, Attempts, Keepable, Lookup;
    if node.task.kind == WaitKind {
    } else if node.task.serviceTarget != "" && env.dispatcher.Some? {
      TwinCall(wm, wd, exec, node.name, input, 1, node.task.serviceTarget);
    } else {
      TwinAttempts(env, exec, node.name, input, wm, wd, 1, MaxAttempts(node.retry));
      AttemptsYieldKeepable(env, exec, node.name, input, wm, 1, MaxAttempts(node.retry), SiteOf(wd));
    }
  }

  // ----- a visit

  /** The state has no record yet or is completed: what a fresh or a cancelled catch-free run leaves. */
  ghost predicate Settled(w: World, exec: string, state: string) {
    w.store.Mem? && (MemLookup(w.store.states, exec, state).None? || IsCompleted(w, exec, state))
  }

  lemma TwinVisit(env: Env, exec: string, node: Node, input: Payload, wm: World, wd: World)
    requires Twins(wm, wd) && CleanId(exec) && KeepableEnv(env, SiteOf(wd)) && Settled(wm, exec, node.name)
    ensures var ((m1, rm), (d1, rd)) := (VisitState(env, exec, node, input, wm), VisitState(env, exec, node, input, wd));
            rm == rd && Twins(m1, d1) && SiteOf(d1) == SiteOf(wd)
  {
    var ahead := WriteAhead(exec, node.name, input, 1);
    if !IsCompleted(wm, exec, node.name) {
      WriteAheadOnMemory(wm, exec, node.name, input, 1);
      EmitOnMemory(Do(wm, ahead).0, MarkRunning(exec, node.name), Pending, Running, "",
                   Fresh(exec, node.name, input, 1), RunningRecord(exec, node.name, input, 1));
    }
    hide Related, Faithful, DoAndEmit, Do, Work, KeepableEnv;
    TwinDo(wm, wd, ahead);
    var ((m1, rm), (d1, rd)) := (Do(wm, ahead), Do(wd, ahead));
    if rm == Refused(StateAlreadyTerminal) {
      TwinDo(m1, d1, GetOutput(exec, node.name));
    } else if !rm.Refused? {
      TwinEmit(m1, d1, MarkRunning(exec, node.name), Pending, Running, "");
      var ((m2, sm), (d2, sd)) := (Start(m1, exec, node.name), Start(d1, exec, node.name));
      if sm.None? {
        TwinWork(env, exec, node, input, m2, d2);
        var ((m3, done), (d3, _)) := (Work(env, exec, node, input, m2), Work(env, exec, node, input, d2));
        match done
        case Succeeded(output) => TwinEmit(m3, d3, Complete(exec, node.name, output), Running, Completed, "");
        case Errored(cause) => TwinEmit(m3, d3, Fail(exec, node.name, Message(cause)), Running, Failed, Message(cause));
      }
    }
  }

  // ----- a run

  ghost predicate AllSettled(w: World, exec: string) {
    forall n :: Settled(w, exec, n)
  }

  lemma OutputKeepsSettled(env: Env, exec: string, node: Node, input: Payload, w: World)
    requires AllSettled(w, exec) && w.store.Mem?
    ensures var (w1, r) := VisitState(env, exec, node, input, w);
            r.Produced? ==> AllSettled(w1, exec)
  {
    hide VisitState;
    VisitOnMemory(env, exec, node, input, w);
    StateKeyInjective(exec);
    var (w1, r) := VisitState(env, exec, node, input, w);
    if r.Produced? {
      forall n ensures Settled(w1, exec, n) {
        assert Settled(w, exec, n);
      }
    }
  }

  ghost predicate SameRun(xm: Execution, xd: Execution) {
    Twins(xm.world, xd.world) && xm.path == xd.path && xm.result == xd.result
  }

  lemma TwinExecution(env: Env, exec: string, g: Graph, node: Node, input: Payload, wm: World, wd: World, depth: nat)
    requires Twins(wm, wd) && CleanId(exec) && KeepableEnv(env, SiteOf(wd)) && AllSettled(wm, exec) && EndsChain(g, node)
    ensures var ((m1, rm), (d1, rd)) := (ExecuteState(env, exec, g, node, input, wm, depth),
                                         ExecuteState(env, exec, g, node, input, wd, depth));
      && wm.store.Mem? && rm == rd && rm != Raised(Cancelled) && rm != Unfinished
      && Twins(m1, d1) && SiteOf(d1) == SiteOf(wd) && (rm.Output? ==> AllSettled(m1, exec))
  {
    hide VisitState, Related, Faithful, KeepableEnv;
    TwinVisit(env, exec, node, input, wm, wd);
    OutputKeepsSettled(env, exec, node, input, wm);
    VisitStaysInMemory(env, exec, node, input, wm);
    if node.task.kind == WaitKind { WaitsDoNotFail(env, exec, node, input, wm); }
  }

  /** A run over settled states in which no catch can be taken makes the same calls, emits the same transitions,
      takes the same path and ends alike on both stores, which stay related. */
  lemma {:induction false} SameRunOnBothStores(env: Env, exec: string, g: Graph, node: Node, current: Payload,
                                               wm: World, wd: World, patience: nat, depth: nat)
    requires Twins(wm, wd) && CleanId(exec) && KeepableEnv(env, SiteOf(wd)) && AllSettled(wm, exec)
    requires CatchFree(g) && EndsChain(g, node)
    ensures SameRun(RunFrom(env, exec, g, node, current, wm, patience, depth),
                    RunFrom(env, exec, g, node, current, wd, patience, depth))
    ensures SiteOf(RunFrom(env, exec, g, node, current, wd, patience, depth).world) == SiteOf(wd)
    ensures var x := RunFrom(env, exec, g, node, current, wm, patience, depth);
            x.result == Stopped(Cancelled) ==> AllSettled(x.world, exec)
    decreases patience
  {
    hide ExecuteState, Twins, KeepableEnv, AllSettled, SiteOf;
    if patience > 0 {
      TwinExecution(env, exec, g, node, current, wm, wd, depth);
      var ((m1, rm), (d1, rd)) := (ExecuteState(env, exec, g, node, current, wm, depth),
                                   ExecuteState(env, exec, g, node, current, wd, depth));
      var turn := TurnAfter(g, node, rm);
      if turn.GoOn? {
        SameRunOnBothStores(env, exec, g, turn.next, turn.output, m1, d1, patience - 1, depth);
      }
    }
  }

  lemma MongoMemoHit(env: Env, exec: string, g: Graph, node: Node, input: Payload, wm: World, wd: World, depth: nat,
                     output: Payload)
    requires Twins(wm, wd) && CleanId(exec) && CompletedWith(wm, exec, node.name, output)
    ensures ExecuteState(env, exec, g, node, input, wd, depth) == (wd, Output(output))
  {
    var (codec, m, d) := (wd.store.codec, wm.store.states, wd.store.mongo);
    var read := GetOutput(exec, node.name);
    CompletedOnBothOrNeither(codec, m, d, exec, node.name);
    GetOutputKeepsStep(codec, m, d, read);
    hide Related, Faithful, HasCompleted, Dereference, Latest, SameCalls;
    assert Do(wd, WriteAhead(exec, node.name, input, 1)) == (wd, Refused(StateAlreadyTerminal));
    assert Do(wd, read) == (wd, Read(output));
  }

  /** Cancelling and resuming a run in which no catch can be taken is invisible on the document store too: the
      documents, objects, calls, transitions, path and result are those of the uninterrupted run. */
  lemma {:induction false} MongoCancelAndResume(env: Env, exec: string, g: Graph, node: Node, input: Payload, wm: World, wd: World,
                                                cut: nat, patience: nat, depth: nat)
    requires Twins(wm, wd) && CleanId(exec) && KeepableEnv(env, SiteOf(wd)) && AllSettled(wm, exec)
    requires CatchFree(g) && EndsChain(g, node) && cut <= patience
    requires RunFrom(env, exec, g, node, input, wd, cut, depth).result == Stopped(Cancelled)
    ensures var first := RunFrom(env, exec, g, node, input, wd, cut, depth).world;
            RunFrom(env, exec, g, node, input, first, patience, depth) == RunFrom(env, exec, g, node, input, wd, patience, depth)
    decreases cut
  {
    hide ExecuteState, Twins, KeepableEnv, AllSettled, SiteOf, CompletedWith;
    if cut > 0 {
      TwinExecution(env, exec, g, node, input, wm, wd, depth);
      OutputIsStored(env, exec, g, node, input, wm, depth);
      var ((m1, r), (d1, _)) := (ExecuteState(env, exec, g, node, input, wm, depth),
                                 ExecuteState(env, exec, g, node, input, wd, depth));
      var turn := TurnAfter(g, node, r);
      var m' := RunFrom(env, exec, g, turn.next, r.output, m1, cut - 1, depth).world;
      var d' := RunFrom(env, exec, g, turn.next, r.output, d1, cut - 1, depth).world;
      assert d' == RunFrom(env, exec, g, node, input, wd, cut, depth).world;
      SameRunOnBothStores(env, exec, g, turn.next, r.output, m1, d1, cut - 1, depth);
      CompletionOutlivesRun(env, exec, g, turn.next, r.output, m1, cut - 1, depth, node.name, r.output);
      MongoMemoHit(env, exec, g, node, input, m', d', depth, r.output);
      MongoCancelAndResume(env, exec, g, turn.next, r.output, m1, d1, cut - 1, patience - 1, depth);
    }
  }

  // ----- documents stay on file

  /** The documents on file only grow. */
  ghost predicate Grows(w: World, w': World) {
    w.store.Doc? && w'.store.Doc? && w.store.mongo.docs.Keys <= w'.store.mongo.docs.Keys
  }

  lemma DoGrows(w: World, op: Op)
    requires w.store.Doc?
    ensures Grows(w, Do(w, op).0)
  {
    hide HasCompleted, Dereference;
  }

  lemma EmitGrows(w: World, op: Op, from: Status, to: Status, message: string)
    requires w.store.Doc?
    ensures Grows(w, DoAndEmit(w, op, from, to, message).0)
  {
    hide Do, StatusOf;
    DoGrows(w, op);
  }

  lemma {:induction false} AttemptsGrow(env: Env, exec: string, state: string, input: Payload, w: World, attempt: nat, max: nat)
    requires w.store.Doc? && attempt <= max
    ensures Grows(w, Attempts(env, exec, state, input, w, attempt, max).0)
    decreases max - attempt
  {
    hide Do, DoAndEmit, Lookup;
    var w1 := LogCall(w, exec, state, input, attempt, "");
    var answer := env.handler(|w.calls|, state, input);
    if answer.Err? && attempt < max {
      EmitGrows(w1, Fail(exec, state, answer.message), Running, Failed, answer.message);
      var (w2, _) := RecordFailure(w1, exec, state, answer.message);
      DoGrows(w2, WriteAhead(exec, state, input, attempt + 1));
      var (w3, _) := Do(w2, WriteAhead(exec, state, input, attempt + 1));
      EmitGrows(w3, MarkRunning(exec, state), Pending, Running, "");
      var (w4, _) := Start(w3, exec, state);
      AttemptsGrow(env, exec, state, input, w4, attempt + 1, max);
    }
  }

  /** A visit whose write-ahead is accepted leaves a new document. */
  lemma AcceptedVisitFiles(env: Env, exec: string, node: Node, input: Payload, w: World)
    requires w.store.Doc? && Do(w, WriteAhead(exec, node.name, input, 1)).1 == Done
    ensures Grows(Do(w, WriteAhead(exec, node.name, input, 1)).0, VisitState(env, exec, node, input, w).0)
  {
    hide Do, DoAndEmit, Lookup, Attempts;
    DoGrows(w, WriteAhead(exec, node.name, input, 1));
    var (w1, _) := Do(w, WriteAhead(exec, node.name, input, 1));
    EmitGrows(w1, MarkRunning(exec, node.name), Pending, Running, "");
    var (w2, started) := Start(w1, exec, node.name);
    if started.None? {
      AttemptsGrow(env, exec, node.name, input, w2, 1, MaxAttempts(node.retry));
      var (w3, done) := Work(env, exec, node, input, w2);
      match done
      case Succeeded(output) => EmitGrows(w3, Complete(exec, node.name, output), Running, Completed, "");
      case Errored(cause) => EmitGrows(w3, Fail(exec, node.name, Message(cause)), Running, Failed, Message(cause));
    }
  }

  // ----- outputs the document store cannot keep

  /** The state is on file and none of its attempts is completed. */
  ghost predicate Open(w: World, site: Site, exec: string, state: string) {
    && w.store.Doc? && SiteOf(w) == site
    && (exists id :: id in w.store.mongo.docs && DocOf(w.store.mongo.docs[id], exec, state))
    && !HasCompleted(w.store.mongo.docs, exec, state)
  }

  lemma UpdateKeepsOpen(d: Mongo, d': Mongo, id: string, doc: StateRecord, exec: string, state: string)
    requires id in d.docs && d'.docs == d.docs[id := doc] && doc.status != Completed
    requires doc.exec == d.docs[id].exec && doc.state == d.docs[id].state
    requires !HasCompleted(d.docs, exec, state)
    requires exists x :: x in d.docs && DocOf(d.docs[x], exec, state)
    ensures !HasCompleted(d'.docs, exec, state)
    ensures exists x :: x in d'.docs && DocOf(d'.docs[x], exec, state)
  {
    var x :| x in d.docs && DocOf(d.docs[x], exec, state);
    assert x in d'.docs && DocOf(d'.docs[x], exec, state);
  }

  lemma DoKeepsOpen(w: World, site: Site, op: Op, exec: string, state: string)
    requires Open(w, site, exec, state) && !op.Complete?
    ensures Open(Do(w, op).0, site, exec, state)
  {
    var (d, d') := (w.store.mongo, Do(w, op).0.store.mongo);
    BucketIsFixed(w.store.codec, d, op);
    if Do(w, op).1.Refused? {
      RefusedChangesNothing(w.store, op);
    } else if op.WriteAhead? {
      var x :| x in d.docs && DocOf(d.docs[x], exec, state);
      assert x in d'.docs && DocOf(d'.docs[x], exec, state);
    } else if op.MarkRunning? || op.Fail? {
      var id := Latest(d.docs, op.exec, op.state).value;
      assert IsLatest(d.docs, op.exec, op.state, id);
      UpdateKeepsOpen(d, d', id, d'.docs[id], exec, state);
    }
  }

  lemma EmitKeepsOpen(w: World, site: Site, op: Op, from: Status, to: Status, message: string, exec: string, state: string)
    requires Open(w, site, exec, state) && !op.Complete?
    ensures Open(DoAndEmit(w, op, from, to, message).0, site, exec, state)
  {
    hide Do, StatusOf, HasCompleted;
    DoKeepsOpen(w, site, op, exec, state);
  }

  lemma {:induction false} AttemptsKeepOpen(env: Env, exec: string, state: string, input: Payload, w: World, site: Site,
                                            attempt: nat, max: nat)
    requires Open(w, site, exec, state) && attempt <= max
    ensures Open(Attempts(env, exec, state, input, w, attempt, max).0, site, exec, state)
    decreases max - attempt
  {
    hide Do, DoAndEmit, Lookup, HasCompleted;
    var w1 := LogCall(w, exec, state, input, attempt, "");
    var answer := env.handler(|w.calls|, state, input);
    assert Open(w1, site, exec, state);
    if answer.Err? && attempt < max {
      hide Open;
      EmitKeepsOpen(w1, site, Fail(exec, state, answer.message), Running, Failed, answer.message, exec, state);
      var (w2, _) := RecordFailure(w1, exec, state, answer.message);
      DoKeepsOpen(w2, site, WriteAhead(exec, state, input, attempt + 1), exec, state);
      var (w3, _) := Do(w2, WriteAhead(exec, state, input, attempt + 1));
      EmitKeepsOpen(w3, site, MarkRunning(exec, state), Pending, Running, "", exec, state);
      var (w4, _) := Start(w3, exec, state);
      AttemptsKeepOpen(env, exec, state, input, w4, site, attempt + 1, max);
    }
  }

  lemma WorkKeepsOpen(env: Env, exec: string, node: Node, input: Payload, w: World, site: Site)
    requires Open(w, site, exec, node.name)
    ensures Open(Work(env, exec, node, input, w).0, site, exec, node.name)
  {
    hide Attempts, Lookup, HasCompleted;
    if node.task.kind != WaitKind && !(node.task.serviceTarget != "" && env.dispatcher.Some?) {
      AttemptsKeepOpen(env, exec, node.name, input, w, site, 1, MaxAttempts(node.retry));
    }
  }

  /** An output that cannot be stored either cannot be encoded or is too large. */
  function WhyNot(site: Site, output: Payload): StoreError {
    if site.codec.encode(output).None? then OutputNotEncodable else OutputTooLarge
  }

  /** A completion of a state on file is accepted, and completes it, exactly when its output can be stored; a
      refused one leaves the store as it was. */
  lemma CompletesExactlyWhenStorable(w: World, site: Site, exec: string, state: string, output: Payload)
    requires Open(w, site, exec, state)
    ensures var (w1, failed) := RecordCompletion(w, exec, state, output);
      && w1.store.Doc?
      && (failed.None? <==> Storable(site.codec, site.bucket, output))
      && (HasCompleted(w1.store.mongo.docs, exec, state) <==> Storable(site.codec, site.bucket, output))
      && (failed.Some? ==> w1 == w && failed.value == WhyNot(site, output))
  {
    var op, d := Complete(exec, state, output), w.store.mongo;
    var x :| x in d.docs && DocOf(d.docs[x], exec, state);
    LatestExists(d.docs, exec, state, x);
    var id := Latest(d.docs, exec, state).value;
    assert IsLatest(d.docs, exec, state, id);
    hide IsLatest, StatusOf;
    var d' := Do(w, op).0.store.mongo;
    if Storable(site.codec, site.bucket, output) {
      assert id in d'.docs && DocOf(d'.docs[id], exec, state) && d'.docs[id].status == Completed;
    }
  }

  lemma OpenStatesCanFail(w: World, site: Site, exec: string, state: string, message: string)
    requires Open(w, site, exec, state)
    ensures RecordFailure(w, exec, state, message).1.None?
  {
    var d := w.store.mongo;
    var x :| x in d.docs && DocOf(d.docs[x], exec, state);
    LatestExists(d.docs, exec, state, x);
  }

  /** The world in which an accepted visit does its work. */
  ghost function Started(exec: string, state: string, input: Payload, w: World): World {
    Start(Do(w, WriteAhead(exec, state, input, 1)).0, exec, state).0
  }

  lemma AcceptedIsOpen(exec: string, state: string, input: Payload, w: World)
    requires w.store.Doc? && Do(w, WriteAhead(exec, state, input, 1)).1 == Done
    ensures var w1 := Do(w, WriteAhead(exec, state, input, 1)).0;
            Open(w1, SiteOf(w), exec, state) && Start(w1, exec, state).1.None? && Open(Started(exec, state, input, w), SiteOf(w), exec, state)
  {
    var w1 := Do(w, WriteAhead(exec, state, input, 1)).0;
    var docs, id := w1.store.mongo.docs, DocId(exec, state, 1);
    assert id in docs && DocOf(docs[id], exec, state);
    LatestExists(docs, exec, state, id);
    hide HasCompleted, IsLatest;
    assert Open(w1, SiteOf(w), exec, state);
    EmitKeepsOpen(w1, SiteOf(w), MarkRunning(exec, state), Pending, Running, "", exec, state);
  }

  /** On the document store an accepted visit whose work succeeds yields its output, and completes the state,
      exactly when the output can be stored. Otherwise it breaks with the reason, the state is not completed and
      nothing was written after the work. Work that fails is a fault, recorded, and never breaks the visit. */
  lemma KeptExactlyWhenStorable(env: Env, exec: string, node: Node, input: Payload, w: World)
    requires w.store.Doc? && Do(w, WriteAhead(exec, node.name, input, 1)).1 == Done
    ensures var (w3, done) := Work(env, exec, node, input, Started(exec, node.name, input, w));
            var (w4, visit) := VisitState(env, exec, node, input, w);
      && (done.Succeeded? ==>
            && w4.store.Doc?
            && (visit == Produced(done.output) <==> Storable(w.store.codec, w.store.mongo.bucket, done.output))
            && (HasCompleted(w4.store.mongo.docs, exec, node.name) <==> Storable(w.store.codec, w.store.mongo.bucket, done.output))
            && (visit != Produced(done.output) ==> w4 == w3 && visit == Broken(WhyNot(SiteOf(w), done.output))))
      && (done.Errored? ==>
            visit == Faulted(done.error) && RecordFailure(w3, exec, node.name, Message(done.error)) == (w4, None))
  {
    hide Do, DoAndEmit, Work, Storable, HasCompleted;
    AcceptedIsOpen(exec, node.name, input, w);
    WorkKeepsOpen(env, exec, node, input, Started(exec, node.name, input, w), SiteOf(w));
    var (w3, done) := Work(env, exec, node, input, Started(exec, node.name, input, w));
    if done.Succeeded? {
      CompletesExactlyWhenStorable(w3, SiteOf(w), exec, node.name, done.output);
      var (w4, failed) := RecordCompletion(w3, exec, node.name, done.output);
      assert VisitState(env, exec, node, input, w)
          == (w4, if failed.Some? then Broken(failed.value) else Produced(done.output));
    } else {
      OpenStatesCanFail(w3, SiteOf(w), exec, node.name, Message(done.error));
    }
  }

  // ----- states left unfinished

  /** On the document store a visit is blocked, the write-ahead refused as terminal and then no output found,
      exactly when the first attempt is on file and no attempt is completed. */
  lemma BlockedExactly(env: Env, exec: string, node: Node, input: Payload, w: World)
    requires w.store.Doc? && WellKeyed(w.store.mongo.docs) && OnlyLatestCompleted(w.store.mongo.docs) && CleanId(exec)
    ensures VisitState(env, exec, node, input, w) == (w, Broken(StateNotCompleted)) <==>
            DocId(exec, node.name, 1) in w.store.mongo.docs && !HasCompleted(w.store.mongo.docs, exec, node.name)
  {
    var docs, id := w.store.mongo.docs, DocId(exec, node.name, 1);
    if HasCompleted(docs, exec, node.name) {
      var done :| done in docs && DocOf(docs[done], exec, node.name) && docs[done].status == Completed;
      LatestIs(docs, exec, node.name, done);
    } else if id in docs {
      DocIdInjective(exec, node.name, 1, docs[id].exec, docs[id].state, docs[id].attempt);
      LatestExists(docs, exec, node.name, id);
      assert IsLatest(docs, exec, node.name, Latest(docs, exec, node.name).value);
    } else {
      AcceptedVisitFiles(env, exec, node, input, w);
      assert id in Do(w, WriteAhead(exec, node.name, input, 1)).0.store.mongo.docs;
    }
  }

  /** From related stores, when the document store is blocked the memory store executes the state once more. */
  lemma BlockedIsRerunInMemory(env: Env, exec: string, node: Node, input: Payload, wm: World, wd: World)
    requires Twins(wm, wd) && CleanId(exec)
    requires VisitState(env, exec, node, input, wd) == (wd, Broken(StateNotCompleted))
    ensures var (m1, rm) := VisitState(env, exec, node, input, wm);
      && !rm.Broken? && m1.store.Mem?
      && |m1.events| > |wm.events| && m1.events[|wm.events|] == StartEvent(node.name)
      && (node.task.kind != WaitKind ==> |m1.calls| > |wm.calls| && m1.calls[|wm.calls|].state == node.name
                                         && m1.calls[|wm.calls|].input == input)
  {
    BlockedExactly(env, exec, node, input, wd);
    CompletedOnBothOrNeither(wd.store.codec, wm.store.states, wd.store.mongo, exec, node.name);
    hide VisitState, Twins, HasCompleted, Related;
    VisitOnMemory(env, exec, node, input, wm);
  }

  /** On related stores whose records all began with a first attempt, both stores answer a visit alike and
      stay related exactly when the state is new or completed. */
  lemma VisitsAgreeExactlyWhenSettled(env: Env, exec: string, node: Node, input: Payload, wm: World, wd: World)
    requires Twins(wm, wd) && CleanId(exec) && KeepableEnv(env, SiteOf(wd))
    requires MemLookup(wm.store.states, exec, node.name).Some? ==> DocId(exec, node.name, 1) in wd.store.mongo.docs
    ensures var ((m1, rm), (d1, rd)) := (VisitState(env, exec, node, input, wm), VisitState(env, exec, node, input, wd));
            (rm == rd && Twins(m1, d1)) <==> Settled(wm, exec, node.name)
  {
    CompletedOnBothOrNeither(wd.store.codec, wm.store.states, wd.store.mongo, exec, node.name);
    BlockedExactly(env, exec, node, input, wd);
    hide VisitState, KeepableEnv, HasCompleted;
    if Settled(wm, exec, node.name) {
      TwinVisit(env, exec, node, input, wm, wd);
    } else {
      BlockedIsRerunInMemory(env, exec, node, input, wm, wd);
    }
  }
}
