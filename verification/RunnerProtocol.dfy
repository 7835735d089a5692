/** Executors driving container jobs, interleaved with the callbacks the jobs send. Each step is one
    store operation or one job event; any number of executor threads run, also several on one
    execution, and a callback may arrive whenever its token has been issued, however late. */
module RunnerProtocol {
  import opened Types
  import opened Keys
  import opened Stores

  /** A validated token is the claim it carries. */
  datatype Token = Token(exec: string, state: string)

  /** Where an executor thread stands inside a state. */
  datatype Pc =
    | Idle
    | Ahead(state: string, input: Payload, attempt: int)
    | Started(state: string, input: Payload, attempt: int)
    | Waiting(state: string, input: Payload, attempt: int)
    | Returned(state: string, output: Payload)
    | Faulted(state: string, input: Payload, attempt: int, message: string)
    | Retrying(state: string, input: Payload, attempt: int)

  datatype Thread = Thread(exec: string, pc: Pc)

  /** What has happened, in order. */
  datatype Note =
    | WroteAhead(exec: string, state: string, input: Payload, attempt: int)
    | Reported(exec: string, state: string, output: Payload)
    | HandedBack(exec: string, state: string, output: Payload)

  datatype System = System(states: States, threads: map<nat, Thread>, issued: set<Token>, history: seq<Note>)

  datatype Action =
    | Spawn(id: nat, exec: string)
    | Begin(id: nat, state: string, input: Payload)
    | Mark(id: nat)
    | Launch(id: nat)
    | RunInline(id: nat, output: Payload)
    | InlineFailed(id: nat, message: string)
    | JobFailed(id: nat, message: string)
    | JobSucceeded(id: nat)
    | Finish(id: nat)
    | FailBeforeRetry(id: nat)
    | WriteRetryAhead(id: nat)
    | GiveUp(id: nat)
    | CallbackComplete(token: Token, output: Payload)
    | CallbackFail(token: Token, message: string)

  /** Which states run as jobs with a token: container tasks, and services in Lambda mode. The others, waits
      and services in deployment mode, run inside the executor. */
  type Plan = (string, string) -> bool

  predicate At(s: System, id: nat) {
    id in s.threads
  }

  predicate Enabled(isJob: Plan, s: System, a: Action) {
    match a
    case Spawn(id, exec) => id !in s.threads && CleanId(exec)
    case Begin(id, _, _) => At(s, id) && s.threads[id].pc.Idle?
    case Mark(id) => At(s, id) && s.threads[id].pc.Ahead?
    case Launch(id) => At(s, id) && s.threads[id].pc.Started? && isJob(s.threads[id].exec, s.threads[id].pc.state)
    case RunInline(id, _) => At(s, id) && s.threads[id].pc.Started? && !isJob(s.threads[id].exec, s.threads[id].pc.state)
    case InlineFailed(id, _) => At(s, id) && s.threads[id].pc.Started? && !isJob(s.threads[id].exec, s.threads[id].pc.state)
    case JobFailed(id, _) => At(s, id) && s.threads[id].pc.Waiting?
    case JobSucceeded(id) => At(s, id) && s.threads[id].pc.Waiting?
    case Finish(id) => At(s, id) && s.threads[id].pc.Returned?
    case FailBeforeRetry(id) => At(s, id) && s.threads[id].pc.Faulted?
    case WriteRetryAhead(id) => At(s, id) && s.threads[id].pc.Retrying?
    case GiveUp(id) => At(s, id) && s.threads[id].pc.Faulted?
    case CallbackComplete(token, _) => token in s.issued
    case CallbackFail(token, _) => token in s.issued
  }

  function Goto(s: System, id: nat, pc: Pc): System
    requires At(s, id)
  {
    s.(threads := s.threads[id := s.threads[id].(pc := pc)])
  }

  /** Perform a store operation; its reply is returned beside the new system. */
  function Ask(s: System, op: Op): (System, Reply) {
    var (m, r) := MemApply(s.states, op);
    (s.(states := m), r)
  }

  function Add(s: System, note: Note): System {
    s.(history := s.history + [note])
  }

  /** Write an attempt ahead: on acceptance go on, otherwise to the given place. */
  function TryAhead(s: System, id: nat, state: string, input: Payload, attempt: int, refused: Pc): System
    requires At(s, id)
  {
    var exec := s.threads[id].exec;
    var (s1, r) := Ask(s, WriteAhead(exec, state, input, attempt));
    if r.Refused? then Goto(s1, id, refused)
    else Add(Goto(s1, id, Ahead(state, input, attempt)), WroteAhead(exec, state, input, attempt))
  }

  function Step(isJob: Plan, s: System, a: Action): System
    requires Enabled(isJob, s, a)
  {
    match a
    case Spawn(id, exec) => s.(threads := s.threads[id := Thread(exec, Idle)])
    case Begin(id, state, input) => TryAhead(s, id, state, input, 1, Idle)
    case Mark(id) =>
      var Thread(exec, Ahead(state, input, attempt)) := s.threads[id];
      Goto(Ask(s, MarkRunning(exec, state)).0, id, Started(state, input, attempt))
    case Launch(id) =>
      var Thread(exec, Started(state, input, attempt)) := s.threads[id];
      Goto(s.(issued := s.issued + {Token(exec, state)}), id, Waiting(state, input, attempt))
    case RunInline(id, output) =>
      var Thread(exec, Started(state, _, _)) := s.threads[id];
      Goto(Ask(s, Complete(exec, state, output)).0, id, Idle)
    case InlineFailed(id, message) =>
      var Thread(exec, Started(state, _, _)) := s.threads[id];
      Goto(Ask(s, Fail(exec, state, message)).0, id, Idle)
    case JobFailed(id, message) =>
      var Thread(_, Waiting(state, input, attempt)) := s.threads[id];
      Goto(s, id, Faulted(state, input, attempt, message))
    case JobSucceeded(id) =>
      var Thread(exec, Waiting(state, input, attempt)) := s.threads[id];
      var (s1, r) := Ask(s, GetOutput(exec, state));
      if r.Read? then Add(Goto(s1, id, Pc.Returned(state, r.output)), HandedBack(exec, state, r.output))
      else Goto(s1, id, Faulted(state, input, attempt, "get output"))
    case Finish(id) =>
      var Thread(exec, Returned(state, output)) := s.threads[id];
      Goto(Ask(s, Complete(exec, state, output)).0, id, Idle)
    case FailBeforeRetry(id) =>
      var Thread(exec, Faulted(state, input, attempt, message)) := s.threads[id];
      Goto(Ask(s, Fail(exec, state, message)).0, id, Retrying(state, input, attempt + 1))
    case WriteRetryAhead(id) =>
      var Thread(_, Retrying(state, input, attempt)) := s.threads[id];
      TryAhead(s, id, state, input, attempt, Faulted(state, input, attempt, "store: state record already in terminal status"))
    case GiveUp(id) =>
      var Thread(exec, Faulted(state, _, _, message)) := s.threads[id];
      Goto(Ask(s, Fail(exec, state, message)).0, id, Idle)
    case CallbackComplete(token, output) =>
      Add(Ask(s, Complete(token.exec, token.state, output)).0, Reported(token.exec, token.state, output))
    case CallbackFail(token, message) =>
      Ask(s, Fail(token.exec, token.state, message)).0
  }

  // ----- the invariant

  predicate AllClean(s: System) {
    && (forall id :: id in s.threads ==> CleanId(s.threads[id].exec))
    && (forall t :: t in s.issued ==> CleanId(t.exec))
  }

  /** The most recent accepted write-ahead of a state. */
  function LastAhead(history: seq<Note>, exec: string, state: string): Option<Note> {
    if history == [] then None
    else
      var note := history[|history| - 1];
      if note.WroteAhead? && note.exec == exec && note.state == state then Some(note)
      else LastAhead(history[..|history| - 1], exec, state)
  }

  /** A record exists only after a write-ahead of its state, and holds the input and attempt of the latest. */
  ghost predicate RecordsWrittenAhead(s: System) {
    forall exec, state :: CleanId(exec) && MemLookup(s.states, exec, state).Some? ==>
      var r := MemLookup(s.states, exec, state).value;
      LastAhead(s.history, exec, state) == Some(WroteAhead(exec, state, r.input, r.attempt))
  }

  /** The completed output of a job state was reported for that very state. */
  ghost predicate OutputsReported(isJob: Plan, s: System) {
    forall exec, state :: CleanId(exec) && isJob(exec, state) && MemLookup(s.states, exec, state).Some? ==>
      var r := MemLookup(s.states, exec, state).value;
      r.status == Completed ==> Reported(exec, state, r.output) in s.history
  }

  ghost predicate Exists(s: System, exec: string, state: string) {
    MemLookup(s.states, exec, state).Some?
  }

  /** A thread inside a state has a record for it, and what its job handler returned was reported and is noted as
      handed back. */
  ghost predicate ThreadSound(isJob: Plan, s: System, t: Thread) {
    match t.pc
    case Idle => true
    case Returned(state, output) =>
      isJob(t.exec, state) && Reported(t.exec, state, output) in s.history && HandedBack(t.exec, state, output) in s.history
    case Waiting(state, _, _) => isJob(t.exec, state) && Exists(s, t.exec, state)
    case _ => Exists(s, t.exec, t.pc.state)
  }

  ghost predicate ThreadsSound(isJob: Plan, s: System) {
    forall id :: id in s.threads ==> ThreadSound(isJob, s, s.threads[id])
  }

  /** Tokens are issued, and jobs created, only for job states whose record exists. */
  ghost predicate TokensSound(isJob: Plan, s: System) {
    forall t :: t in s.issued ==> isJob(t.exec, t.state) && Exists(s, t.exec, t.state)
  }

  /** Every output a job handler handed back had been reported before, for the same execution and state. */
  predicate ReportedBefore(history: seq<Note>, j: int)
    requires 0 <= j < |history|
  {
    history[j].HandedBack? ==> Reported(history[j].exec, history[j].state, history[j].output) in history[..j]
  }

  predicate ReportsPrecede(history: seq<Note>) {
    forall j :: 0 <= j < |history| ==> ReportedBefore(history, j)
  }

  /** Records are filed under their own key. */
  ghost predicate FiledByKey(m: States) {
    forall key :: key in m ==> key == StateKey(m[key].exec, m[key].state) && CleanId(m[key].exec)
  }

  ghost predicate Inv(isJob: Plan, s: System) {
    && AllClean(s) && FiledByKey(s.states) && RecordsWrittenAhead(s) && OutputsReported(isJob, s)
    && ThreadsSound(isJob, s) && TokensSound(isJob, s) && ReportsPrecede(s.history)
  }

  // ----- effects on the invariant

  lemma PrecedeAppend(history: seq<Note>, note: Note)
    requires ReportsPrecede(history)
    requires note.HandedBack? ==> Reported(note.exec, note.state, note.output) in history
    ensures ReportsPrecede(history + [note])
  {
    var h := history + [note];
    forall j | 0 <= j < |h| ensures ReportedBefore(h, j) {
      if j < |history| {
        assert ReportedBefore(history, j) && h[..j] == history[..j] && h[j] == history[j];
      } else {
        assert h[..j] == history;
      }
    }
  }

  lemma LastAheadAppend(history: seq<Note>, note: Note, exec: string, state: string)
    ensures LastAhead(history + [note], exec, state) ==
            if note.WroteAhead? && note.exec == exec && note.state == state then Some(note) else LastAhead(history, exec, state)
  {
    assert (history + [note])[..|history|] == history;
  }

  /** Only one record can change, and only into what the operation makes of it. */
  lemma AskFrame(s: System, op: Op, exec: string, state: string)
    requires CleanId(op.exec) && CleanId(exec)
    ensures MemLookup(Ask(s, op).0.states, exec, state) ==
            if exec == op.exec && state == op.state then RecordAfter(MemLookup(s.states, exec, state), op)
            else MemLookup(s.states, exec, state)
  {
    StateKeyInjectiveAcross(op.exec, op.state, exec, state);
  }

  lemma AskKeepsRecords(s: System, op: Op, exec: string, state: string)
    requires CleanId(op.exec) && CleanId(exec) && Exists(s, exec, state)
    ensures Exists(Ask(s, op).0, exec, state)
  {
    hide Ask;
    AskFrame(s, op, exec, state);
  }

  /** What a step writes into the history beside its operation: nothing, or the note that belongs to it. */
  ghost predicate ProperNotes(isJob: Plan, s: System, op: Op, history: seq<Note>) {
    if op.WriteAhead? && Ask(s, op).1 == Done then
      history == s.history + [WroteAhead(op.exec, op.state, op.input, op.attempt)]
    else
      && (history == s.history || (|history| == |s.history| + 1 && history[..|s.history|] == s.history && !history[|s.history|].WroteAhead?))
      && (op.Complete? && isJob(op.exec, op.state) ==> Reported(op.exec, op.state, op.output) in history)
  }

  lemma NotesKept(isJob: Plan, s: System, op: Op, history: seq<Note>, exec: string, state: string)
    requires ProperNotes(isJob, s, op, history)
    ensures forall note :: note in s.history ==> note in history
    ensures LastAhead(history, exec, state) ==
            if op.WriteAhead? && Ask(s, op).1 == Done && op.exec == exec && op.state == state
            then Some(WroteAhead(op.exec, op.state, op.input, op.attempt)) else LastAhead(s.history, exec, state)
  {
    hide Ask;
    if history != s.history {
      var note := history[|s.history|];
      assert history == s.history + [note];
      LastAheadAppend(s.history, note, exec, state);
    }
  }

  lemma AheadReply(s: System, op: Op)
    requires op.WriteAhead?
    ensures var r := MemLookup(s.states, op.exec, op.state);
            Ask(s, op).1 == if r.None? || r.value.status != Completed then Done else Refused(StateAlreadyTerminal)
  {
  }

  /** An operation by a party entitled to it, with its note, keeps what the store promises. */
  lemma StoreKept(isJob: Plan, s: System, op: Op, history: seq<Note>)
    requires RecordsWrittenAhead(s) && OutputsReported(isJob, s) && FiledByKey(s.states) && CleanId(op.exec)
    requires ProperNotes(isJob, s, op, history)
    ensures var s' := Ask(s, op).0.(history := history);
            RecordsWrittenAhead(s') && OutputsReported(isJob, s') && FiledByKey(s'.states)
  {
    FiledKept(s, op);
    hide Ask, FiledByKey, ProperNotes;
    var s' := Ask(s, op).0.(history := history);
    forall exec, state | CleanId(exec) && MemLookup(s'.states, exec, state).Some?
      ensures var r := MemLookup(s'.states, exec, state).value;
              && LastAhead(history, exec, state) == Some(WroteAhead(exec, state, r.input, r.attempt))
              && (isJob(exec, state) && r.status == Completed ==> Reported(exec, state, r.output) in history)
    {
      AskFrame(s, op, exec, state);
      NotesKept(isJob, s, op, history, exec, state);
      if op.WriteAhead? { AheadReply(s, op); }
      if op.Complete? { CompletionNoted(isJob, s, op, history); }
    }
  }

  lemma CompletionNoted(isJob: Plan, s: System, op: Op, history: seq<Note>)
    requires op.Complete? && ProperNotes(isJob, s, op, history)
    ensures isJob(op.exec, op.state) ==> Reported(op.exec, op.state, op.output) in history
  {
  }

  lemma FiledKept(s: System, op: Op)
    requires FiledByKey(s.states) && CleanId(op.exec)
    ensures FiledByKey(Ask(s, op).0.states)
  {
  }

  /** Threads other than the one that moved stay sound as records and history grow. */
  lemma ThreadsKept(isJob: Plan, s: System, op: Op, s': System, moved: Option<nat>)
    requires AllClean(s) && ThreadsSound(isJob, s) && TokensSound(isJob, s) && CleanId(op.exec)
    requires s'.states == Ask(s, op).0.states
    requires forall note :: note in s.history ==> note in s'.history
    requires forall x :: x in s'.threads && moved != Some(x) ==> x in s.threads && s'.threads[x] == s.threads[x]
    requires moved.Some? && moved.value in s'.threads ==> ThreadSound(isJob, s', s'.threads[moved.value])
    requires s'.issued == s.issued
    ensures ThreadsSound(isJob, s') && TokensSound(isJob, s')
  {
    hide Ask;
    forall x | x in s'.threads && moved != Some(x) ensures ThreadSound(isJob, s', s'.threads[x]) {
      assert ThreadSound(isJob, s, s.threads[x]);
      var t := s.threads[x];
      if !t.pc.Idle? && Exists(s, t.exec, t.pc.state) {
        AskKeepsRecords(s, op, t.exec, t.pc.state);
      }
    }
    forall t | t in s'.issued ensures Exists(s', t.exec, t.state) {
      AskKeepsRecords(s, op, t.exec, t.state);
    }
  }

  lemma TryAheadKeeps(isJob: Plan, s: System, id: nat, state: string, input: Payload, attempt: int, refused: Pc)
    requires Inv(isJob, s) && At(s, id)
    requires refused.Idle? || (refused.Faulted? && refused.state == state)
    ensures Inv(isJob, TryAhead(s, id, state, input, attempt, refused))
  {
    var exec := s.threads[id].exec;
    var op := WriteAhead(exec, state, input, attempt);
    var s' := TryAhead(s, id, state, input, attempt, refused);
    AheadReply(s, op);
    AskFrame(s, op, exec, state);
    StoreKept(isJob, s, op, s'.history);
    ThreadsKept(isJob, s, op, s', Some(id));
    if Ask(s, op).1 == Done {
      PrecedeAppend(s.history, WroteAhead(exec, state, input, attempt));
    }
  }

  /** A thread performs an operation without notes and moves on. */
  lemma MoveKeeps(isJob: Plan, s: System, id: nat, op: Op, pc: Pc)
    requires Inv(isJob, s) && At(s, id) && op.exec == s.threads[id].exec && !op.WriteAhead?
    requires op.Complete? && isJob(op.exec, op.state) ==> Reported(op.exec, op.state, op.output) in s.history
    requires ThreadSound(isJob, s, Thread(op.exec, pc)) && !pc.Returned?
    ensures Inv(isJob, Goto(Ask(s, op).0, id, pc))
  {
    var s' := Goto(Ask(s, op).0, id, pc);
    StoreKept(isJob, s, op, s.history);
    if !pc.Idle? {
      AskKeepsRecords(s, op, op.exec, pc.state);
    }
    ThreadsKept(isJob, s, op, s', Some(id));
  }

  lemma JobSucceededKeeps(isJob: Plan, s: System, id: nat)
    requires Inv(isJob, s) && Enabled(isJob, s, JobSucceeded(id))
    ensures Inv(isJob, Step(isJob, s, JobSucceeded(id)))
  {
    hide LastAhead, ReportsPrecede, FiledByKey;
    var Thread(exec, Waiting(state, input, attempt)) := s.threads[id];
    assert ThreadSound(isJob, s, s.threads[id]);
    var op := GetOutput(exec, state);
    var s' := Step(isJob, s, JobSucceeded(id));
    StoreKept(isJob, s, op, s'.history);
    var (_, r) := Ask(s, op);
    if r.Read? {
      assert MemLookup(s.states, exec, state).Some?;
      assert Reported(exec, state, r.output) in s.history;
      PrecedeAppend(s.history, HandedBack(exec, state, r.output));
    }
    ThreadsKept(isJob, s, op, s', Some(id));
  }

  lemma CallbackKeeps(isJob: Plan, s: System, a: Action)
    requires Inv(isJob, s) && Enabled(isJob, s, a) && (a.CallbackComplete? || a.CallbackFail?)
    ensures Inv(isJob, Step(isJob, s, a))
  {
    var s' := Step(isJob, s, a);
    var op := if a.CallbackComplete? then Complete(a.token.exec, a.token.state, a.output)
              else Fail(a.token.exec, a.token.state, a.message);
    StoreKept(isJob, s, op, s'.history);
    if a.CallbackComplete? {
      PrecedeAppend(s.history, Reported(a.token.exec, a.token.state, a.output));
    }
    ThreadsKept(isJob, s, op, s', None);
  }

  lemma LaunchKeeps(isJob: Plan, s: System, id: nat)
    requires Inv(isJob, s) && Enabled(isJob, s, Launch(id))
    ensures Inv(isJob, Step(isJob, s, Launch(id)))
  {
    assert ThreadSound(isJob, s, s.threads[id]);
    var s' := Step(isJob, s, Launch(id));
    forall x | x in s'.threads && x != id ensures ThreadSound(isJob, s', s'.threads[x]) {
      assert ThreadSound(isJob, s, s.threads[x]);
    }
  }

  lemma SpawnKeeps(isJob: Plan, s: System, id: nat, exec: string)
    requires Inv(isJob, s) && Enabled(isJob, s, Spawn(id, exec))
    ensures Inv(isJob, Step(isJob, s, Spawn(id, exec)))
  {
    var s' := Step(isJob, s, Spawn(id, exec));
    forall x | x in s'.threads ensures ThreadSound(isJob, s', s'.threads[x]) {
      if x != id { assert ThreadSound(isJob, s, s.threads[x]); }
    }
  }

  lemma JobFailedKeeps(isJob: Plan, s: System, id: nat, message: string)
    requires Inv(isJob, s) && Enabled(isJob, s, JobFailed(id, message))
    ensures Inv(isJob, Step(isJob, s, JobFailed(id, message)))
  {
    var s' := Step(isJob, s, JobFailed(id, message));
    forall x | x in s'.threads ensures ThreadSound(isJob, s', s'.threads[x]) {
      assert ThreadSound(isJob, s, s.threads[x]);
    }
  }

  /** A job that ended well hands back exactly the output its state is completed with, and is a fault when the
      state is not completed. */
  lemma JobHandsBackStoredOutput(isJob: Plan, s: System, id: nat)
    requires Inv(isJob, s) && Enabled(isJob, s, JobSucceeded(id))
    ensures var Thread(exec, Waiting(state, input, attempt)) := s.threads[id];
            var s' := Step(isJob, s, JobSucceeded(id));
            var r := MemLookup(s.states, exec, state);
      && r.Some? && s'.states == s.states
      && (r.value.status == Completed ==>
            s'.threads[id].pc == Pc.Returned(state, r.value.output)
            && s'.history == s.history + [HandedBack(exec, state, r.value.output)])
      && (r.value.status != Completed ==> s'.threads[id].pc.Faulted? && s'.history == s.history)
  {
    Sound(isJob, s, id);
  }

  /** Every step of the protocol keeps the invariant. */
  lemma StepKeepsInv(isJob: Plan, s: System, a: Action)
    requires Inv(isJob, s) && Enabled(isJob, s, a)
    ensures Inv(isJob, Step(isJob, s, a))
  {
    hide Inv, Ask, TryAhead, Goto;
    match a
    case Spawn(id, exec) => SpawnKeeps(isJob, s, id, exec);
    case Begin(id, state, input) => TryAheadKeeps(isJob, s, id, state, input, 1, Idle);
    case Launch(id) => LaunchKeeps(isJob, s, id);
    case JobFailed(id, message) => JobFailedKeeps(isJob, s, id, message);
    case JobSucceeded(id) => JobSucceededKeeps(isJob, s, id);
    case CallbackComplete(_, _) => CallbackKeeps(isJob, s, a);
    case CallbackFail(_, _) => CallbackKeeps(isJob, s, a);
    case Mark(id) =>
      Sound(isJob, s, id);
      var Thread(exec, Ahead(state, input, attempt)) := s.threads[id];
      MoveKeeps(isJob, s, id, MarkRunning(exec, state), Started(state, input, attempt));
    case RunInline(id, output) =>
      Sound(isJob, s, id);
      MoveKeeps(isJob, s, id, Complete(s.threads[id].exec, s.threads[id].pc.state, output), Idle);
    case InlineFailed(id, message) =>
      Sound(isJob, s, id);
      MoveKeeps(isJob, s, id, Fail(s.threads[id].exec, s.threads[id].pc.state, message), Idle);
    case Finish(id) =>
      Sound(isJob, s, id);
      MoveKeeps(isJob, s, id, Complete(s.threads[id].exec, s.threads[id].pc.state, s.threads[id].pc.output), Idle);
    case FailBeforeRetry(id) =>
      Sound(isJob, s, id);
      var Thread(exec, Faulted(state, input, attempt, message)) := s.threads[id];
      MoveKeeps(isJob, s, id, Fail(exec, state, message), Retrying(state, input, attempt + 1));
    case WriteRetryAhead(id) =>
      Sound(isJob, s, id);
      var Thread(_, Retrying(state, input, attempt)) := s.threads[id];
      TryAheadKeeps(isJob, s, id, state, input, attempt,
                    Faulted(state, input, attempt, "store: state record already in terminal status"));
    case GiveUp(id) =>
      Sound(isJob, s, id);
      var Thread(exec, Faulted(state, _, _, message)) := s.threads[id];
      MoveKeeps(isJob, s, id, Fail(exec, state, message), Idle);
  }

  lemma Sound(isJob: Plan, s: System, id: nat)
    requires Inv(isJob, s) && id in s.threads
    ensures ThreadSound(isJob, s, s.threads[id])
  {
  }

  // ----- whole interleavings

  predicate Possible(isJob: Plan, s: System, actions: seq<Action>)
    decreases actions
  {
    actions == [] || (Enabled(isJob, s, actions[0]) && Possible(isJob, Step(isJob, s, actions[0]), actions[1..]))
  }

  function After(isJob: Plan, s: System, actions: seq<Action>): System
    requires Possible(isJob, s, actions)
    decreases actions
  {
    if actions == [] then s else After(isJob, Step(isJob, s, actions[0]), actions[1..])
  }

  const START := System(map[], map[], {}, [])

  lemma {:induction false} InterleavingsKeepInv(isJob: Plan, s: System, actions: seq<Action>)
    requires Inv(isJob, s) && Possible(isJob, s, actions)
    ensures Inv(isJob, After(isJob, s, actions))
    decreases actions
  {
    hide Inv, Step, Enabled;
    if actions != [] {
      StepKeepsInv(isJob, s, actions[0]);
      InterleavingsKeepInv(isJob, Step(isJob, s, actions[0]), actions[1..]);
    }
  }

  /** In every interleaving from the start: a record exists only after its write-ahead and a job only for
      such a record; whatever a job handler handed back had been reported earlier for the same execution
      and state, and so had every completed output of a job state. */
  lemma ProtocolSafety(isJob: Plan, actions: seq<Action>)
    requires Possible(isJob, START, actions)
    ensures var s := After(isJob, START, actions);
      && RecordsWrittenAhead(s) && TokensSound(isJob, s)
      && ReportsPrecede(s.history) && OutputsReported(isJob, s)
  {
    hide Step, Enabled;
    InterleavingsKeepInv(isJob, START, actions);
  }

  /** A callback changes at most the record of the state its token names, and no thread. */
  lemma CallbackTouchesItsOwnState(isJob: Plan, s: System, a: Action, exec: string, state: string)
    requires Inv(isJob, s) && Enabled(isJob, s, a) && (a.CallbackComplete? || a.CallbackFail?)
    requires CleanId(exec) && Token(exec, state) != a.token
    ensures MemLookup(Step(isJob, s, a).states, exec, state) == MemLookup(s.states, exec, state)
    ensures Step(isJob, s, a).threads == s.threads
  {
    var op := if a.CallbackComplete? then Complete(a.token.exec, a.token.state, a.output)
              else Fail(a.token.exec, a.token.state, a.message);
    AskFrame(s, op, exec, state);
  }

  // ----- when a completed record survives

  predicate InState(s: System, id: nat, exec: string, state: string) {
    id in s.threads && s.threads[id].exec == exec && !s.threads[id].pc.Idle? && s.threads[id].pc.state == state
  }

  /** The steps that overwrite a record completed with this output: a late report of its own job, or a second
      executor that is already inside the state. */
  predicate Overwrites(s: System, a: Action, exec: string, state: string, output: Payload) {
    match a
    case CallbackFail(token, _) => token == Token(exec, state)
    case CallbackComplete(token, reported) => token == Token(exec, state) && reported != output
    case Mark(id) => InState(s, id, exec, state)
    case InlineFailed(id, _) => InState(s, id, exec, state)
    case FailBeforeRetry(id) => InState(s, id, exec, state)
    case GiveUp(id) => InState(s, id, exec, state)
    case RunInline(id, produced) => InState(s, id, exec, state) && produced != output
    case Finish(id) => InState(s, id, exec, state) && s.threads[id].pc.Returned? && s.threads[id].pc.output != output
    case _ => false
  }

  /** The store operation a step performs, if any. */
  function OpOf(isJob: Plan, s: System, a: Action): Option<Op>
    requires Enabled(isJob, s, a)
  {
    match a
    case Spawn(_, _) => None
    case Launch(_) => None
    case JobFailed(_, _) => None
    case Begin(id, state, input) => Some(WriteAhead(s.threads[id].exec, state, input, 1))
    case Mark(id) => Some(MarkRunning(s.threads[id].exec, s.threads[id].pc.state))
    case RunInline(id, output) => Some(Complete(s.threads[id].exec, s.threads[id].pc.state, output))
    case InlineFailed(id, message) => Some(Fail(s.threads[id].exec, s.threads[id].pc.state, message))
    case JobSucceeded(id) => Some(GetOutput(s.threads[id].exec, s.threads[id].pc.state))
    case Finish(id) => Some(Complete(s.threads[id].exec, s.threads[id].pc.state, s.threads[id].pc.output))
    case FailBeforeRetry(id) => Some(Fail(s.threads[id].exec, s.threads[id].pc.state, s.threads[id].pc.message))
    case WriteRetryAhead(id) =>
      Some(WriteAhead(s.threads[id].exec, s.threads[id].pc.state, s.threads[id].pc.input, s.threads[id].pc.attempt))
    case GiveUp(id) => Some(Fail(s.threads[id].exec, s.threads[id].pc.state, s.threads[id].pc.message))
    case CallbackComplete(token, output) => Some(Complete(token.exec, token.state, output))
    case CallbackFail(token, message) => Some(Fail(token.exec, token.state, message))
  }

  lemma StepPerformsOp(isJob: Plan, s: System, a: Action)
    requires Enabled(isJob, s, a)
    ensures Step(isJob, s, a).states == match OpOf(isJob, s, a)
                                        case None => s.states
                                        case Some(op) => Ask(s, op).0.states
  {
    hide MemApply;
  }

  /** A completed record survives a step exactly when the step is none of those that overwrite it. */
  lemma CompletedSurvivesExactly(isJob: Plan, s: System, a: Action, exec: string, state: string, r: StateRecord)
    requires Inv(isJob, s) && Enabled(isJob, s, a) && CleanId(exec)
    requires MemLookup(s.states, exec, state) == Some(r) && r.status == Completed
    ensures MemLookup(Step(isJob, s, a).states, exec, state) == Some(r) <==> !Overwrites(s, a, exec, state, r.output)
  {
    hide Step, Ask, Inv, MemApply, CleanId;
    StepPerformsOp(isJob, s, a);
    OpIsClean(isJob, s, a);
    match OpOf(isJob, s, a)
    case None =>
    case Some(op) => AskFrame(s, op, exec, state);
  }

  lemma OpIsClean(isJob: Plan, s: System, a: Action)
    requires Inv(isJob, s) && Enabled(isJob, s, a)
    ensures OpOf(isJob, s, a).Some? ==> CleanId(OpOf(isJob, s, a).value.exec)
  {
  }

  lemma First(isJob: Plan, s: System, a: Action, rest: seq<Action>)
    requires Enabled(isJob, s, a) && Possible(isJob, Step(isJob, s, a), rest)
    ensures Possible(isJob, s, [a] + rest)
    ensures After(isJob, s, [a] + rest) == After(isJob, Step(isJob, s, a), rest)
  {
    hide Step, Enabled;
    assert ([a] + rest)[1..] == rest;
  }

  /** A new thread launches the first attempt of a job state. */
  function Opening(exec: string, state: string, input: Payload): seq<Action> {
    [Spawn(0, exec), Begin(0, state, input), Mark(0), Launch(0)]
  }

  function Launched(exec: string, state: string, input: Payload): System {
    System(map[StateKey(exec, state) := Fresh(exec, state, input, 1).(status := Running)],
           map[0 := Thread(exec, Waiting(state, input, 1))], {Token(exec, state)}, [WroteAhead(exec, state, input, 1)])
  }

  lemma OpeningLaunches(isJob: Plan, exec: string, state: string, input: Payload, rest: seq<Action>)
    requires CleanId(exec) && isJob(exec, state) && Possible(isJob, Launched(exec, state, input), rest)
    ensures Possible(isJob, START, Opening(exec, state, input) + rest)
    ensures After(isJob, START, Opening(exec, state, input) + rest) == After(isJob, Launched(exec, state, input), rest)
  {
    var s1 := Step(isJob, START, Spawn(0, exec));
    var s2 := Step(isJob, s1, Begin(0, state, input));
    var s3 := Step(isJob, s2, Mark(0));
    assert Step(isJob, s3, Launch(0)) == Launched(exec, state, input);
    First(isJob, s3, Launch(0), rest);
    First(isJob, s2, Mark(0), [Launch(0)] + rest);
    First(isJob, s1, Begin(0, state, input), [Mark(0)] + ([Launch(0)] + rest));
    First(isJob, START, Spawn(0, exec), [Begin(0, state, input)] + ([Mark(0)] + ([Launch(0)] + rest)));
    assert [Spawn(0, exec)] + ([Begin(0, state, input)] + ([Mark(0)] + ([Launch(0)] + rest)))
        == Opening(exec, state, input) + rest;
  }

  /** From the start every job state can be completed and then reported failed with the same token, so
      completion is not final under callbacks. No in-process run would do that. */
  lemma CompletionCanBeLost(isJob: Plan, exec: string, state: string, input: Payload, output: Payload, message: string)
    requires CleanId(exec) && isJob(exec, state)
    ensures var (done, failed) := (CallbackComplete(Token(exec, state), output), CallbackFail(Token(exec, state), message));
            var (before, after) := (Opening(exec, state, input) + [done], Opening(exec, state, input) + [done, failed]);
      && Possible(isJob, START, before) && Possible(isJob, START, after)
      && MemLookup(After(isJob, START, before).states, exec, state)
         == Some(Fresh(exec, state, input, 1).(status := Completed, output := output))
      && MemLookup(After(isJob, START, after).states, exec, state)
         == Some(Fresh(exec, state, input, 1).(status := Failed, output := output, error := message))
  {
    hide Possible, After, Opening;
    var done, failed := CallbackComplete(Token(exec, state), output), CallbackFail(Token(exec, state), message);
    var s := Launched(exec, state, input);
    var s1 := Step(isJob, s, done);
    assert Enabled(isJob, s1, failed);
    var s2 := Step(isJob, s1, failed);
    Nothing(isJob, s1);
    Nothing(isJob, s2);
    First(isJob, s1, failed, []);
    assert [failed] + [] == [failed];
    First(isJob, s, done, []);
    assert [done] + [] == [done];
    First(isJob, s, done, [failed]);
    assert [done] + [failed] == [done, failed];
    OpeningLaunches(isJob, exec, state, input, [done]);
    OpeningLaunches(isJob, exec, state, input, [done, failed]);
  }

  lemma Nothing(isJob: Plan, s: System)
    ensures Possible(isJob, s, []) && After(isJob, s, []) == s
  {
  }

  // ----- GetInput

  predicate RecordOf(r: StateRecord, token: Token) {
    r.exec == token.exec && r.state == token.state
  }

  /** The callback that hands a job its input: search the execution's records for the state, and fall back on
      the execution's own input when there is none or its input is nil, as it is in the records `unset`. */
  method GetInput(executions: map<string, Payload>, m: States, unset: set<string>, token: Token) returns (input: Option<Payload>)
    ensures input.None? <==> token.exec !in executions
    ensures token.exec in executions && (forall key :: key in m ==> !RecordOf(m[key], token)) ==>
              input == Some(executions[token.exec])
    ensures token.exec in executions && (exists key :: key in m && RecordOf(m[key], token)) ==>
              exists key :: key in m && RecordOf(m[key], token)
                            && input == Some(if key in unset then executions[token.exec] else m[key].input)
  {
    if token.exec !in executions {
      return None;
    }
    var todo := m.Keys;
    while todo != {}
      invariant todo <= m.Keys
      invariant forall key :: key in m && key !in todo ==> !RecordOf(m[key], token)
    {
      var key :| key in todo;
      if m[key].exec == token.exec && m[key].state == token.state {
        assert RecordOf(m[key], token);
        if key !in unset {
          return Some(m[key].input);
        }
        return Some(executions[token.exec]);
      }
      todo := todo - {key};
    }
    return Some(executions[token.exec]);
  }

  /** In every interleaving, a job that asks with an issued token gets, from the one record that qualifies, the
      input of the latest write-ahead of its own state. */
  lemma JobGetsWrittenInput(isJob: Plan, actions: seq<Action>, token: Token)
    requires Possible(isJob, START, actions) && token in After(isJob, START, actions).issued
    ensures var s := After(isJob, START, actions);
            var last := LastAhead(s.history, token.exec, token.state);
      && last.Some? && last.value.WroteAhead?
      && (exists key :: key in s.states && RecordOf(s.states[key], token))
      && forall key :: key in s.states && RecordOf(s.states[key], token) ==> s.states[key].input == last.value.input
  {
    hide Step, Enabled;
    InterleavingsKeepInv(isJob, START, actions);
    var s := After(isJob, START, actions);
    var own := StateKey(token.exec, token.state);
    assert Exists(s, token.exec, token.state) && own in s.states;
    StateKeyInjectiveAcross(token.exec, token.state, s.states[own].exec, s.states[own].state);
    assert RecordOf(s.states[own], token);
  }

  // ----- what an executor works on, read off the actions

  datatype Begun = Begun(state: string, input: Payload)

  function Front(actions: seq<Action>): seq<Action>
    requires actions != []
  {
    actions[..|actions| - 1]
  }

  function Last(actions: seq<Action>): Action
    requires actions != []
  {
    actions[|actions| - 1]
  }

  /** The executor's latest `Begin`. */
  function LatestBegin(actions: seq<Action>, id: nat): Option<Begun> {
    if actions == [] then None
    else if Last(actions).Begin? && Last(actions).id == id then Some(Begun(Last(actions).state, Last(actions).input))
    else LatestBegin(Front(actions), id)
  }

  /** How often it has failed an attempt to retry since then. */
  function RetriesSince(actions: seq<Action>, id: nat): nat {
    if actions == [] || (Last(actions).Begin? && Last(actions).id == id) then 0
    else RetriesSince(Front(actions), id) + (if Last(actions) == FailBeforeRetry(id) then 1 else 0)
  }

  /** What its latest job failed with, unless the job ended or was to be written ahead again since. */
  function JobFault(actions: seq<Action>, id: nat): Option<string> {
    if actions == [] then None
    else match Last(actions)
      case JobFailed(other, message) => if other == id then Some(message) else JobFault(Front(actions), id)
      case JobSucceeded(other) => if other == id then None else JobFault(Front(actions), id)
      case WriteRetryAhead(other) => if other == id then None else JobFault(Front(actions), id)
      case _ => JobFault(Front(actions), id)
  }

  /** Inside a state an executor holds the state and input of its latest `Begin`, under attempt one plus the
      retries since, and a fault is what the job failed with. */
  predicate Consistent(actions: seq<Action>, id: nat, pc: Pc) {
    match pc
    case Idle => true
    case Returned(state, _) => LatestBegin(actions, id).Some? && LatestBegin(actions, id).value.state == state
    case _ =>
      && LatestBegin(actions, id) == Some(Begun(pc.state, pc.input))
      && pc.attempt == 1 + RetriesSince(actions, id)
      && (pc.Faulted? && JobFault(actions, id).Some? ==> pc.message == JobFault(actions, id).value)
  }

  ghost predicate AllConsistent(actions: seq<Action>, s: System) {
    forall id :: id in s.threads ==> Consistent(actions, id, s.threads[id].pc)
  }

  /** The action is a step of this executor. */
  predicate ActsAs(a: Action, id: nat) {
    !a.CallbackComplete? && !a.CallbackFail? && a.id == id
  }

  lemma StepMovesItsThread(isJob: Plan, s: System, a: Action, id: nat)
    requires Enabled(isJob, s, a) && id in s.threads && !ActsAs(a, id)
    ensures id in Step(isJob, s, a).threads && Step(isJob, s, a).threads[id] == s.threads[id]
  {
    hide MemApply;
  }

  lemma ReadingsAfter(done: seq<Action>, a: Action, id: nat)
    requires !ActsAs(a, id)
    ensures LatestBegin(done + [a], id) == LatestBegin(done, id) && RetriesSince(done + [a], id) == RetriesSince(done, id)
    ensures JobFault(done + [a], id) == JobFault(done, id)
  {
    assert Front(done + [a]) == done && Last(done + [a]) == a;
  }

  lemma OwnStepKeepsConsistent(isJob: Plan, done: seq<Action>, s: System, a: Action, id: nat)
    requires Enabled(isJob, s, a) && ActsAs(a, id) && id in s.threads && Consistent(done, id, s.threads[id].pc)
    ensures id in Step(isJob, s, a).threads && Consistent(done + [a], id, Step(isJob, s, a).threads[id].pc)
  {
    hide MemApply;
    assert Front(done + [a]) == done && Last(done + [a]) == a;
  }

  lemma StepKeepsConsistent(isJob: Plan, done: seq<Action>, s: System, a: Action, id: nat)
    requires Enabled(isJob, s, a) && AllConsistent(done, s) && id in Step(isJob, s, a).threads
    ensures Consistent(done + [a], id, Step(isJob, s, a).threads[id].pc)
  {
    hide Step, Enabled;
    if id !in s.threads {
      NewIsIdle(isJob, s, a, id);
    } else if ActsAs(a, id) {
      OwnStepKeepsConsistent(isJob, done, s, a, id);
    } else {
      StepMovesItsThread(isJob, s, a, id);
      ReadingsAfter(done, a, id);
    }
  }

  lemma NewIsIdle(isJob: Plan, s: System, a: Action, id: nat)
    requires Enabled(isJob, s, a) && id !in s.threads && id in Step(isJob, s, a).threads
    ensures Step(isJob, s, a).threads[id].pc == Idle
  {
    hide MemApply;
  }

  lemma {:induction false} InterleavingsStayConsistent(isJob: Plan, done: seq<Action>, s: System, actions: seq<Action>)
    requires Possible(isJob, s, actions) && AllConsistent(done, s)
    ensures AllConsistent(done + actions, After(isJob, s, actions))
    decreases actions
  {
    hide Step, Enabled, Consistent;
    if actions == [] {
      assert done + actions == done;
    } else {
      var s1 := Step(isJob, s, actions[0]);
      forall id | id in s1.threads ensures Consistent(done + [actions[0]], id, s1.threads[id].pc) {
        StepKeepsConsistent(isJob, done, s, actions[0], id);
      }
      InterleavingsStayConsistent(isJob, done + [actions[0]], s1, actions[1..]);
      assert done + [actions[0]] + actions[1..] == done + actions;
    }
  }

  /** In every interleaving, with any number of executors, each works on what it began with. */
  lemma ExecutorsWorkOnTheirBegin(isJob: Plan, actions: seq<Action>, id: nat)
    requires Possible(isJob, START, actions) && id in After(isJob, START, actions).threads
    ensures Consistent(actions, id, After(isJob, START, actions).threads[id].pc)
  {
    hide Step, Enabled, Consistent;
    InterleavingsStayConsistent(isJob, [], START, actions);
    assert [] + actions == actions;
  }

  /** A failed attempt is recorded with the message it failed with, whether it is retried or given up. */
  lemma FaultIsRecorded(isJob: Plan, s: System, a: Action)
    requires Inv(isJob, s) && Enabled(isJob, s, a) && (a.FailBeforeRetry? || a.GiveUp? || a.InlineFailed?)
    ensures var (exec, state) := (s.threads[a.id].exec, s.threads[a.id].pc.state);
            var r := MemLookup(Step(isJob, s, a).states, exec, state);
            r.Some? && r.value.status == Failed
            && r.value.error == if a.InlineFailed? then a.message else s.threads[a.id].pc.message
  {
    hide Inv, Ask, Step;
    Sound(isJob, s, a.id);
    OpIsClean(isJob, s, a);
    StepPerformsOp(isJob, s, a);
    AskFrame(s, OpOf(isJob, s, a).value, s.threads[a.id].exec, s.threads[a.id].pc.state);
  }

  // ----- one executor per execution

  ghost predicate Sole(s: System, exec: string, id: nat) {
    && id in s.threads && s.threads[id].exec == exec
    && forall other :: other in s.threads && s.threads[other].exec == exec ==> other == id
  }

  /** The record of the state the executor is inside has the input of its latest `Begin`, and while the attempt
      is being started or run also its number. */
  ghost predicate Driven(done: seq<Action>, s: System, id: nat)
    requires id in s.threads
  {
    var Thread(exec, pc) := s.threads[id];
    !pc.Idle? ==>
      && LatestBegin(done, id).Some?
      && MemLookup(s.states, exec, pc.state).Some?
      && var r := MemLookup(s.states, exec, pc.state).value;
         && r.input == LatestBegin(done, id).value.input
         && (pc.Ahead? || pc.Started? || pc.Waiting? ==> r.attempt == pc.attempt)
  }

  /** A step of another party leaves the executor and the inputs and attempts of its records alone. */
  lemma OthersKeepDriven(isJob: Plan, done: seq<Action>, s: System, a: Action, exec: string, id: nat)
    requires Inv(isJob, s) && Enabled(isJob, s, a) && Sole(s, exec, id) && Driven(done, s, id)
    requires !ActsAs(a, id)
    ensures id in Step(isJob, s, a).threads && Driven(done + [a], Step(isJob, s, a), id)
  {
    hide Inv, Ask, Step;
    ReadingsAfter(done, a, id);
    StepPerformsOp(isJob, s, a);
    StepMovesItsThread(isJob, s, a, id);
    OpIsClean(isJob, s, a);
    ThreadIsClean(isJob, s, id);
    var pc := s.threads[id].pc;
    if OpOf(isJob, s, a).Some? && !pc.Idle? {
      AskFrame(s, OpOf(isJob, s, a).value, exec, pc.state);
    }
  }

  lemma ThreadIsClean(isJob: Plan, s: System, id: nat)
    requires Inv(isJob, s) && id in s.threads
    ensures CleanId(s.threads[id].exec)
  {
  }

  /** The executor writes an attempt ahead, or is refused. */
  lemma OwnAheadKeepsDriven(isJob: Plan, done: seq<Action>, s: System, a: Action, id: nat)
    requires Inv(isJob, s) && Enabled(isJob, s, a) && id in s.threads && (a.Begin? || a.WriteRetryAhead?) && a.id == id
    requires Driven(done, s, id) && Consistent(done, id, s.threads[id].pc)
    ensures id in Step(isJob, s, a).threads && Driven(done + [a], Step(isJob, s, a), id)
  {
    hide Inv, MemApply, CleanId, StateKey, JobFault;
    assert Front(done + [a]) == done && Last(done + [a]) == a;
    ThreadIsClean(isJob, s, id);
    var op := OpOf(isJob, s, a).value;
    AskFrame(s, op, s.threads[id].exec, op.state);
    AheadReply(s, op);
  }

  /** Any other step of the executor keeps the record's input and attempt. */
  lemma OwnStepKeepsDriven(isJob: Plan, done: seq<Action>, s: System, a: Action, id: nat)
    requires Inv(isJob, s) && Enabled(isJob, s, a) && id in s.threads && ActsAs(a, id) && !a.Begin? && !a.WriteRetryAhead?
    requires Driven(done, s, id) && Consistent(done, id, s.threads[id].pc)
    ensures id in Step(isJob, s, a).threads && Driven(done + [a], Step(isJob, s, a), id)
  {
    hide Inv, MemApply, CleanId, StateKey, JobFault, TryAhead;
    assert Front(done + [a]) == done && Last(done + [a]) == a;
    ThreadIsClean(isJob, s, id);
    if OpOf(isJob, s, a).Some? {
      AskFrame(s, OpOf(isJob, s, a).value, s.threads[id].exec, s.threads[id].pc.state);
    }
  }

  lemma StepKeepsDriven(isJob: Plan, done: seq<Action>, s: System, a: Action, exec: string, id: nat)
    requires Inv(isJob, s) && Enabled(isJob, s, a) && AllConsistent(done, s)
    requires id in s.threads ==> Sole(s, exec, id) && Driven(done, s, id)
    ensures var s' := Step(isJob, s, a);
            id in s'.threads ==> Driven(done + [a], s', id)
  {
    hide Inv, Ask, Driven, Consistent;
    if id in s.threads {
      if ActsAs(a, id) && (a.Begin? || a.WriteRetryAhead?) {
        OwnAheadKeepsDriven(isJob, done, s, a, id);
      } else if ActsAs(a, id) {
        OwnStepKeepsDriven(isJob, done, s, a, id);
      } else {
        OthersKeepDriven(isJob, done, s, a, exec, id);
      }
    } else if id in Step(isJob, s, a).threads {
      NewIsIdle(isJob, s, a, id);
      NothingToDrive(done + [a], Step(isJob, s, a), id);
    }
  }

  lemma NothingToDrive(done: seq<Action>, s: System, id: nat)
    requires id in s.threads && s.threads[id].pc == Idle
    ensures Driven(done, s, id)
  {
  }

  lemma StepKeepsThreads(isJob: Plan, s: System, a: Action, id: nat)
    requires Enabled(isJob, s, a) && id in s.threads
    ensures id in Step(isJob, s, a).threads && Step(isJob, s, a).threads[id].exec == s.threads[id].exec
  {
    hide MemApply;
  }

  lemma {:induction false} ThreadsStay(isJob: Plan, s: System, actions: seq<Action>, id: nat)
    requires Possible(isJob, s, actions) && id in s.threads
    ensures id in After(isJob, s, actions).threads && After(isJob, s, actions).threads[id].exec == s.threads[id].exec
    decreases actions
  {
    hide Step, Enabled;
    if actions != [] {
      StepKeepsThreads(isJob, s, actions[0], id);
      ThreadsStay(isJob, Step(isJob, s, actions[0]), actions[1..], id);
    }
  }

  lemma SoleBefore(isJob: Plan, s: System, actions: seq<Action>, exec: string, id: nat)
    requires Possible(isJob, s, actions) && Sole(After(isJob, s, actions), exec, id) && id in s.threads
    ensures Sole(s, exec, id)
  {
    hide Step, Enabled;
    ThreadsStay(isJob, s, actions, id);
    forall other | other in s.threads && s.threads[other].exec == exec ensures other == id {
      ThreadsStay(isJob, s, actions, other);
    }
  }

  lemma {:induction false} InterleavingsStayDriven(isJob: Plan, done: seq<Action>, s: System, actions: seq<Action>, exec: string, id: nat)
    requires Inv(isJob, s) && Possible(isJob, s, actions) && AllConsistent(done, s)
    requires Sole(After(isJob, s, actions), exec, id)
    requires id in s.threads ==> Driven(done, s, id)
    ensures Driven(done + actions, After(isJob, s, actions), id)
    decreases actions
  {
    hide Step, Enabled, Inv, Driven, Consistent, Sole;
    ThreadsOf(isJob, s, actions, exec, id);
    if actions == [] {
      assert done + actions == done;
    } else {
      var a, s1 := actions[0], Step(isJob, s, actions[0]);
      if id in s.threads { SoleBefore(isJob, s, actions, exec, id); }
      StepKeepsInv(isJob, s, a);
      StepKeepsDriven(isJob, done, s, a, exec, id);
      forall x | x in s1.threads ensures Consistent(done + [a], x, s1.threads[x].pc) {
        StepKeepsConsistent(isJob, done, s, a, x);
      }
      InterleavingsStayDriven(isJob, done + [a], s1, actions[1..], exec, id);
      assert done + [a] + actions[1..] == done + actions;
    }
  }

  lemma ThreadsOf(isJob: Plan, s: System, actions: seq<Action>, exec: string, id: nat)
    requires Possible(isJob, s, actions) && Sole(After(isJob, s, actions), exec, id)
    ensures id in After(isJob, s, actions).threads
  {
  }

  /** When one executor drives an execution, in every interleaving: while it is inside a state, a job of that
      state that asks for its input gets, from the one record that qualifies, what the state was begun with,
      through all retries. */
  lemma JobGetsBegunInput(isJob: Plan, actions: seq<Action>, id: nat, token: Token)
    requires Possible(isJob, START, actions)
    requires Sole(After(isJob, START, actions), token.exec, id) && InState(After(isJob, START, actions), id, token.exec, token.state)
    ensures var s := After(isJob, START, actions);
      && LatestBegin(actions, id).Some? && LatestBegin(actions, id).value.state == token.state
      && (exists key :: key in s.states && RecordOf(s.states[key], token))
      && forall key :: key in s.states && RecordOf(s.states[key], token) ==> s.states[key].input == LatestBegin(actions, id).value.input
  {
    hide Step, Enabled, Possible, After;
    InterleavingsKeepInv(isJob, START, actions);
    InterleavingsStayDriven(isJob, [], START, actions, token.exec, id);
    assert [] + actions == actions;
    ExecutorsWorkOnTheirBegin(isJob, actions, id);
    var s := After(isJob, START, actions);
    var own := StateKey(token.exec, token.state);
    assert own in s.states && CleanId(token.exec);
    StateKeyInjectiveAcross(token.exec, token.state, s.states[own].exec, s.states[own].state);
    assert RecordOf(s.states[own], token);
  }

  // ----- any number of executors

  /** One of the actions began this state of this execution with this input. */
  ghost predicate WasBegun(actions: seq<Action>, s: System, exec: string, state: string, input: Payload) {
    exists i :: 0 <= i < |actions| && actions[i].Begin? && actions[i].state == state && actions[i].input == input
                && actions[i].id in s.threads && s.threads[actions[i].id].exec == exec
  }

  ghost predicate RecordsBegun(actions: seq<Action>, s: System) {
    forall exec, state :: CleanId(exec) && MemLookup(s.states, exec, state).Some? ==>
      WasBegun(actions, s, exec, state, MemLookup(s.states, exec, state).value.input)
  }

  lemma {:induction false} LatestWasBegun(actions: seq<Action>, s: System, id: nat)
    requires id in s.threads && LatestBegin(actions, id).Some?
    ensures var b := LatestBegin(actions, id).value; WasBegun(actions, s, s.threads[id].exec, b.state, b.input)
  {
    if Last(actions).Begin? && Last(actions).id == id {
      assert actions[|actions| - 1].Begin?;
    } else {
      LatestWasBegun(Front(actions), s, id);
      var b := LatestBegin(actions, id).value;
      var i :| 0 <= i < |Front(actions)| && Front(actions)[i].Begin? && Front(actions)[i].state == b.state && Front(actions)[i].input == b.input
               && Front(actions)[i].id in s.threads && s.threads[Front(actions)[i].id].exec == s.threads[id].exec;
      assert actions[i] == Front(actions)[i];
    }
  }

  lemma WasBegunStays(isJob: Plan, done: seq<Action>, s: System, a: Action, exec: string, state: string, input: Payload)
    requires Enabled(isJob, s, a) && WasBegun(done, s, exec, state, input)
    ensures WasBegun(done + [a], Step(isJob, s, a), exec, state, input)
  {
    hide Step, Enabled;
    var i :| 0 <= i < |done| && done[i].Begin? && done[i].state == state && done[i].input == input
             && done[i].id in s.threads && s.threads[done[i].id].exec == exec;
    StepKeepsThreads(isJob, s, a, done[i].id);
    assert (done + [a])[i] == done[i];
  }

  /** A write-ahead writes the input of its executor's latest `Begin`, counting the step itself. */
  lemma AheadWritesBegun(isJob: Plan, done: seq<Action>, s: System, a: Action)
    requires Enabled(isJob, s, a) && AllConsistent(done, s) && OpOf(isJob, s, a).Some? && OpOf(isJob, s, a).value.WriteAhead?
    ensures var op := OpOf(isJob, s, a).value; WasBegun(done + [a], Step(isJob, s, a), op.exec, op.state, op.input)
  {
    hide Step;
    var id := a.id;
    assert Front(done + [a]) == done && Last(done + [a]) == a;
    assert Consistent(done, id, s.threads[id].pc);
    StepKeepsThreads(isJob, s, a, id);
    LatestWasBegun(done + [a], Step(isJob, s, a), id);
  }

  lemma StepKeepsRecordsBegun(isJob: Plan, done: seq<Action>, s: System, a: Action)
    requires Inv(isJob, s) && Enabled(isJob, s, a) && AllConsistent(done, s) && RecordsBegun(done, s)
    ensures RecordsBegun(done + [a], Step(isJob, s, a))
  {
    hide Step, Ask, Inv, Consistent, WasBegun, Enabled;
    var s' := Step(isJob, s, a);
    StepPerformsOp(isJob, s, a);
    OpIsClean(isJob, s, a);
    forall exec, state | CleanId(exec) && MemLookup(s'.states, exec, state).Some?
      ensures WasBegun(done + [a], s', exec, state, MemLookup(s'.states, exec, state).value.input)
    {
      if OpOf(isJob, s, a).Some? {
        var op := OpOf(isJob, s, a).value;
        AskFrame(s, op, exec, state);
        if op.WriteAhead? { AheadWritesBegun(isJob, done, s, a); }
      }
      if MemLookup(s.states, exec, state).Some? {
        WasBegunStays(isJob, done, s, a, exec, state, MemLookup(s.states, exec, state).value.input);
      }
    }
  }

  lemma {:induction false} InterleavingsKeepRecordsBegun(isJob: Plan, done: seq<Action>, s: System, actions: seq<Action>)
    requires Inv(isJob, s) && Possible(isJob, s, actions) && AllConsistent(done, s) && RecordsBegun(done, s)
    ensures RecordsBegun(done + actions, After(isJob, s, actions))
    decreases actions
  {
    hide Step, Enabled, Inv, Consistent, RecordsBegun;
    if actions == [] {
      assert done + actions == done;
    } else {
      var a, s1 := actions[0], Step(isJob, s, actions[0]);
      StepKeepsInv(isJob, s, a);
      StepKeepsRecordsBegun(isJob, done, s, a);
      forall x | x in s1.threads ensures Consistent(done + [a], x, s1.threads[x].pc) {
        StepKeepsConsistent(isJob, done, s, a, x);
      }
      InterleavingsKeepRecordsBegun(isJob, done + [a], s1, actions[1..]);
      assert done + [a] + actions[1..] == done + actions;
    }
  }

  /** With any number of executors, a record's input is always one that some executor of its execution began
      its state with. */
  lemma RecordsHoldBegunInputs(isJob: Plan, actions: seq<Action>)
    requires Possible(isJob, START, actions)
    ensures RecordsBegun(actions, After(isJob, START, actions))
  {
    hide Step, Enabled;
    InterleavingsKeepRecordsBegun(isJob, [], START, actions);
    assert [] + actions == actions;
  }
}
