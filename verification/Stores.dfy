/** The state operations of the `Store` interface and its two implementations, as functions
    from a store value to the next store value and the reply. */
module Stores {
  import opened Types
  import opened Keys

  datatype Status = Pending | Running | Completed | Failed

  datatype StateRecord = StateRecord(
    exec: string, state: string, status: Status,
    input: Payload, output: Payload, error: string, attempt: int)

  datatype StoreError =
    | StateNotFound
    | StateNotCompleted
    | StateAlreadyTerminal
    | OutputTooLarge        // over 1 MiB and no object store
    | OutputNotEncodable    // json.Marshal failed
    | ObjectMissing         // the referenced object does not exist
    | ObjectNotDecodable    // json.Unmarshal failed
    | ObjectStoreAbsent     // a reference is followed although no object store is configured

  datatype Op =
    | WriteAhead(exec: string, state: string, input: Payload, attempt: int)
    | MarkRunning(exec: string, state: string)
    | Complete(exec: string, state: string, output: Payload)
    | Fail(exec: string, state: string, message: string)
    | GetOutput(exec: string, state: string)

  datatype Reply = Done | Read(output: Payload) | Refused(error: StoreError)

  // ----- MemoryStore: one record per (execution, state)

  type States = map<string, StateRecord>

  function Fresh(exec: string, state: string, input: Payload, attempt: int): StateRecord {
    StateRecord(exec, state, Pending, input, map[], "", attempt)
  }

  function MemApply(m: States, op: Op): (States, Reply) {
    var key := StateKey(op.exec, op.state);
    match op
    case WriteAhead(exec, state, input, attempt) =>
      if key in m && m[key].status == Completed then (m, Refused(StateAlreadyTerminal))
      else (m[key := Fresh(exec, state, input, attempt)], Done)
    case MarkRunning(_, _) =>
      if key !in m then (m, Refused(StateNotFound))
      else (m[key := m[key].(status := Running)], Done)
    case Complete(_, _, output) =>
      if key !in m then (m, Refused(StateNotFound))
      else (m[key := m[key].(status := Completed, output := output)], Done)
    case Fail(_, _, message) =>
      if key !in m then (m, Refused(StateNotFound))
      else (m[key := m[key].(status := Failed, error := message)], Done)
    case GetOutput(_, _) =>
      if key !in m then (m, Refused(StateNotFound))
      else if m[key].status != Completed then (m, Refused(StateNotCompleted))
      else (m, Read(m[key].output))
  }

  function MemLookup(m: States, exec: string, state: string): Option<StateRecord> {
    if StateKey(exec, state) in m then Some(m[StateKey(exec, state)]) else None
  }

  // ----- MongoStore: one document per attempt, large outputs in an object store

  type Byte = b: int | 0 <= b < 256
  type Bytes = seq<Byte>

  /** JSON as an encode/decode pair; encoding fails on values JSON cannot express. */
  datatype Codec = Codec(encode: Payload -> Option<Bytes>, decode: Bytes -> Option<Payload>)

  ghost predicate Faithful(codec: Codec) {
    forall p :: codec.encode(p).Some? ==> codec.decode(codec.encode(p).value) == Some(p)
  }

  /** `bucket` is None when no object store is configured. */
  datatype Mongo = Mongo(docs: map<string, StateRecord>, objects: map<string, Bytes>, bucket: Option<string>)

  const INLINE_LIMIT := 1_048_576
  const REF_KEY := "_ref"
  const SCHEME := "s3://"

  predicate DocOf(doc: StateRecord, exec: string, state: string) {
    doc.exec == exec && doc.state == state
  }

  predicate IsLatest(docs: map<string, StateRecord>, exec: string, state: string, id: string) {
    && id in docs && DocOf(docs[id], exec, state)
    && forall other :: other in docs && DocOf(docs[other], exec, state) ==> docs[other].attempt <= docs[id].attempt
  }

  /** `FindOne` by execution and state, sorted by descending attempt. */
  ghost function Latest(docs: map<string, StateRecord>, exec: string, state: string): Option<string> {
    if exists id :: IsLatest(docs, exec, state, id) then
      var id :| IsLatest(docs, exec, state, id); Some(id)
    else None
  }

  predicate HasCompleted(docs: map<string, StateRecord>, exec: string, state: string) {
    exists id | id in docs :: DocOf(docs[id], exec, state) && docs[id].status == Completed
  }

  function Reference(bucket: string, key: string): Payload {
    map[REF_KEY := Text(SCHEME + bucket + "/" + key)]
  }

  /** The shape `GetStateOutput` takes for an offload reference. */
  predicate RefShaped(output: Payload) {
    |output| == 1 && REF_KEY in output && output[REF_KEY].Text? && output[REF_KEY].s != ""
  }

  /** Index of the first slash, or -1. */
  function IndexOfSlash(s: string): (i: int)
    ensures -1 <= i < |s|
    ensures i == -1 ==> '/' !in s
    ensures i >= 0 ==> s[i] == '/' && '/' !in s[..i]
  {
    if s == [] then -1
    else if s[0] == '/' then 0
    else
      var i := IndexOfSlash(s[1..]);
      if i == -1 then -1
      else
        assert s[..i + 1] == [s[0]] + s[1..][..i];
        i + 1
  }

  function ExtractS3Key(ref: string): string {
    var rest := if SCHEME <= ref then ref[|SCHEME|..] else ref;
    var i := IndexOfSlash(rest);
    if i < 0 then rest else rest[i + 1..]
  }

  ghost function MongoUpdateLatest(d: Mongo, exec: string, state: string,
                                   change: StateRecord -> StateRecord): (Mongo, Reply) {
    match Latest(d.docs, exec, state)
    case None => (d, Refused(StateNotFound))
    case Some(id) => (d.(docs := d.docs[id := change(d.docs[id])]), Done)
  }

  ghost function MongoComplete(codec: Codec, d: Mongo, exec: string, state: string, output: Payload): (Mongo, Reply) {
    match codec.encode(output)
    case None => (d, Refused(OutputNotEncodable))
    case Some(bytes) =>
      if |bytes| <= INLINE_LIMIT then
        MongoUpdateLatest(d, exec, state, (doc: StateRecord) => doc.(status := Completed, output := output))
      else if d.bucket.None? then
        (d, Refused(OutputTooLarge))
      else
        match Latest(d.docs, exec, state)
        case None => (d, Refused(StateNotFound))
        case Some(id) =>
          var key := ObjectKey(exec, state, d.docs[id].attempt);
          MongoUpdateLatest(
            d.(objects := d.objects[key := bytes]), exec, state,
            (doc: StateRecord) => doc.(status := Completed, output := Reference(d.bucket.value, key)))
  }

  function Dereference(codec: Codec, d: Mongo, output: Payload): Reply {
    if !RefShaped(output) then Read(output)
    else if d.bucket.None? then Refused(ObjectStoreAbsent)
    else
      var key := ExtractS3Key(output[REF_KEY].s);
      if key !in d.objects then Refused(ObjectMissing)
      else match codec.decode(d.objects[key])
        case None => Refused(ObjectNotDecodable)
        case Some(p) => Read(p)
  }

  ghost function MongoApply(codec: Codec, d: Mongo, op: Op): (Mongo, Reply) {
    match op
    case WriteAhead(exec, state, input, attempt) =>
      var id := DocId(exec, state, attempt);
      if HasCompleted(d.docs, exec, state) || id in d.docs then (d, Refused(StateAlreadyTerminal))
      else (d.(docs := d.docs[id := Fresh(exec, state, input, attempt)]), Done)
    case MarkRunning(exec, state) =>
      MongoUpdateLatest(d, exec, state, (doc: StateRecord) => doc.(status := Running))
    case Complete(exec, state, output) =>
      MongoComplete(codec, d, exec, state, output)
    case Fail(exec, state, message) =>
      MongoUpdateLatest(d, exec, state, (doc: StateRecord) => doc.(status := Failed, error := message))
    case GetOutput(exec, state) =>
      match Latest(d.docs, exec, state)
      case None => (d, Refused(StateNotFound))
      case Some(id) =>
        if d.docs[id].status != Completed then (d, Refused(StateNotCompleted))
        else (d, Dereference(codec, d, d.docs[id].output))
  }

  ghost function MongoLookup(d: Mongo, exec: string, state: string): Option<StateRecord> {
    match Latest(d.docs, exec, state)
    case None => None
    case Some(id) => Some(d.docs[id])
  }

  // ----- the interface the executor is written against

  datatype Store = Mem(states: States) | Doc(codec: Codec, mongo: Mongo)

  ghost function Apply(s: Store, op: Op): (Store, Reply) {
    match s
    case Mem(m) => var (m', r) := MemApply(m, op); (Mem(m'), r)
    case Doc(codec, d) => var (d', r) := MongoApply(codec, d, op); (Doc(codec, d'), r)
  }

  ghost function Lookup(s: Store, exec: string, state: string): Option<StateRecord> {
    match s
    case Mem(m) => MemLookup(m, exec, state)
    case Doc(_, d) => MongoLookup(d, exec, state)
  }

  /** What one operation does to one record of a memory store; every other state keeps its record. */
  function RecordAfter(previous: Option<StateRecord>, op: Op): Option<StateRecord> {
    match op
    case WriteAhead(exec, state, input, attempt) =>
      if previous.Some? && previous.value.status == Completed then previous else Some(Fresh(exec, state, input, attempt))
    case MarkRunning(_, _) => if previous.None? then None else Some(previous.value.(status := Running))
    case Complete(_, _, output) => if previous.None? then None else Some(previous.value.(status := Completed, output := output))
    case Fail(_, _, message) => if previous.None? then None else Some(previous.value.(status := Failed, error := message))
    case GetOutput(_, _) => previous
  }
}
