/** The two stores as the objects they are: maps updated in place, each method proved against the
    store's step function. */
module StoreObjects {
  import opened Types
  import opened Keys
  import opened Stores
  import opened MongoRefinement

  class MemoryStore {
    var states: States

    constructor ()
      ensures states == map[]
    {
      states := map[];
    }

    method WriteAheadState(exec: string, state: string, input: Payload, attempt: int) returns (reply: Reply)
      modifies this
      ensures (states, reply) == MemApply(old(states), WriteAhead(exec, state, input, attempt))
    {
      var key := StateKey(exec, state);
      if key in states {
        if states[key].status == Completed {
          return Refused(StateAlreadyTerminal);
        }
      }
      states := states[key := StateRecord(exec, state, Pending, input, map[], "", attempt)];
      return Done;
    }

    method MarkRunning(exec: string, state: string) returns (reply: Reply)
      modifies this
      ensures (states, reply) == MemApply(old(states), Op.MarkRunning(exec, state))
    {
      var key := StateKey(exec, state);
      if key !in states {
        return Refused(StateNotFound);
      }
      states := states[key := states[key].(status := Running)];
      return Done;
    }

    method CompleteState(exec: string, state: string, output: Payload) returns (reply: Reply)
      modifies this
      ensures (states, reply) == MemApply(old(states), Complete(exec, state, output))
    {
      var key := StateKey(exec, state);
      if key !in states {
        return Refused(StateNotFound);
      }
      states := states[key := states[key].(status := Completed, output := output)];
      return Done;
    }

    method FailState(exec: string, state: string, message: string) returns (reply: Reply)
      modifies this
      ensures (states, reply) == MemApply(old(states), Fail(exec, state, message))
    {
      var key := StateKey(exec, state);
      if key !in states {
        return Refused(StateNotFound);
      }
      states := states[key := states[key].(status := Failed, error := message)];
      return Done;
    }

    /** The stored output is copied entry by entry. */
    method GetStateOutput(exec: string, state: string) returns (reply: Reply)
      ensures (states, reply) == MemApply(states, GetOutput(exec, state))
    {
      var key := StateKey(exec, state);
      if key !in states {
        return Refused(StateNotFound);
      }
      if states[key].status != Completed {
        return Refused(StateNotCompleted);
      }
      var stored := states[key].output;
      var out: Payload := map[];
      var todo := stored.Keys;
      while todo != {}
        invariant todo <= stored.Keys
        invariant out.Keys == stored.Keys - todo
        invariant forall k :: k in out ==> out[k] == stored[k]
      {
        var k :| k in todo;
        out := out[k := stored[k]];
        todo := todo - {k};
      }
      assert out == stored;
      return Read(out);
    }
  }

  class MongoStore {
    const codec: Codec
    const bucket: Option<string>
    var docs: Docs
    var objects: map<string, Bytes>

    ghost function Contents(): Mongo
      reads this
    {
      Mongo(docs, objects, bucket)
    }

    ghost predicate Valid()
      reads this
    {
      SelfKeyed(docs)
    }

    constructor (codec: Codec, bucket: Option<string>)
      ensures this.codec == codec && Contents() == Mongo(map[], map[], bucket) && Valid()
    {
      this.codec, this.bucket := codec, bucket;
      docs, objects := map[], map[];
    }

    /** The document with the highest attempt of a state, whatever order the collection is scanned in. */
    method FindLatest(exec: string, state: string) returns (best: Option<string>)
      requires Valid()
      ensures best == Latest(docs, exec, state)
    {
      best := None;
      var todo := docs.Keys;
      while todo != {}
        invariant todo <= docs.Keys
        invariant best.Some? ==> best.value in docs && DocOf(docs[best.value], exec, state)
        invariant forall id :: id in docs && id !in todo && DocOf(docs[id], exec, state) ==>
                    best.Some? && docs[id].attempt <= docs[best.value].attempt
      {
        var id :| id in todo;
        if DocOf(docs[id], exec, state) && (best.None? || docs[best.value].attempt < docs[id].attempt) {
          best := Some(id);
        }
        todo := todo - {id};
      }
      LatestNone(docs, exec, state);
      if best.Some? {
        assert IsLatest(docs, exec, state, best.value);
        LatestIs(docs, exec, state, best.value);
      }
    }

    method FindCompleted(exec: string, state: string) returns (found: bool)
      ensures found <==> HasCompleted(docs, exec, state)
    {
      var todo := docs.Keys;
      while todo != {}
        invariant todo <= docs.Keys
        invariant forall id :: id in docs && id !in todo ==> !(DocOf(docs[id], exec, state) && docs[id].status == Completed)
      {
        var id :| id in todo;
        if DocOf(docs[id], exec, state) && docs[id].status == Completed {
          return true;
        }
        todo := todo - {id};
      }
      return false;
    }

    method WriteAheadState(exec: string, state: string, input: Payload, attempt: int) returns (reply: Reply)
      requires Valid()
      modifies `docs
      ensures Valid() && (Contents(), reply) == MongoApply(codec, old(Contents()), WriteAhead(exec, state, input, attempt))
    {
      var terminal := FindCompleted(exec, state);
      if terminal {
        return Refused(StateAlreadyTerminal);
      }
      var id := DocId(exec, state, attempt);
      if id in docs {
        return Refused(StateAlreadyTerminal);
      }
      docs := docs[id := StateRecord(exec, state, Pending, input, map[], "", attempt)];
      return Done;
    }

    method MarkRunning(exec: string, state: string) returns (reply: Reply)
      requires Valid()
      modifies `docs
      ensures Valid() && (Contents(), reply) == MongoApply(codec, old(Contents()), Op.MarkRunning(exec, state))
    {
      var id := FindLatest(exec, state);
      if id.None? {
        return Refused(StateNotFound);
      }
      assert IsLatest(docs, exec, state, id.value);
      docs := docs[id.value := docs[id.value].(status := Running)];
      return Done;
    }

    method FailState(exec: string, state: string, message: string) returns (reply: Reply)
      requires Valid()
      modifies `docs
      ensures Valid() && (Contents(), reply) == MongoApply(codec, old(Contents()), Fail(exec, state, message))
    {
      var id := FindLatest(exec, state);
      if id.None? {
        return Refused(StateNotFound);
      }
      assert IsLatest(docs, exec, state, id.value);
      docs := docs[id.value := docs[id.value].(status := Failed, error := message)];
      return Done;
    }

    method CompleteState(exec: string, state: string, output: Payload) returns (reply: Reply)
      requires Valid()
      modifies `docs, `objects
      ensures Valid() && (Contents(), reply) == MongoApply(codec, old(Contents()), Complete(exec, state, output))
    {
      var bytes := codec.encode(output);
      if bytes.None? {
        return Refused(OutputNotEncodable);
      }
      var stored := output;
      if |bytes.value| > INLINE_LIMIT {
        if bucket.None? {
          return Refused(OutputTooLarge);
        }
        var current := FindLatest(exec, state);
        if current.None? {
          return Refused(StateNotFound);
        }
        assert IsLatest(docs, exec, state, current.value);
        var key := ObjectKey(exec, state, docs[current.value].attempt);
        objects := objects[key := bytes.value];
        stored := Reference(bucket.value, key);
      }
      var id := FindLatest(exec, state);
      if id.None? {
        return Refused(StateNotFound);
      }
      assert IsLatest(docs, exec, state, id.value);
      docs := docs[id.value := docs[id.value].(status := Completed, output := stored)];
      return Done;
    }

    method GetStateOutput(exec: string, state: string) returns (reply: Reply)
      requires Valid()
      ensures (Contents(), reply) == MongoApply(codec, Contents(), GetOutput(exec, state))
    {
      var id := FindLatest(exec, state);
      if id.None? {
        return Refused(StateNotFound);
      }
      assert IsLatest(docs, exec, state, id.value);
      var doc := docs[id.value];
      if doc.status != Completed {
        return Refused(StateNotCompleted);
      }
      var output := doc.output;
      if |output| == 1 && REF_KEY in output && output[REF_KEY].Text? && output[REF_KEY].s != "" {
        if bucket.None? {
          return Refused(ObjectStoreAbsent);
        }
        var key := ExtractS3Key(output[REF_KEY].s);
        if key !in objects {
          return Refused(ObjectMissing);
        }
        var result := codec.decode(objects[key]);
        if result.None? {
          return Refused(ObjectNotDecodable);
        }
        return Read(result.value);
      }
      return Read(output);
    }
  }

  /** A value of the `Store` interface: one of the two stores. */
  datatype StoreHandle = Memory(memory: MemoryStore) | Documents(documents: MongoStore) {
    ghost function Footprint(): set<object> {
      match this
      case Memory(m) => {m}
      case Documents(d) => {d}
    }

    ghost predicate Valid()
      reads Footprint()
    {
      Documents? ==> documents.Valid()
    }

    ghost function Value(): Store
      reads Footprint()
    {
      match this
      case Memory(m) => Mem(m.states)
      case Documents(d) => Doc(d.codec, d.Contents())
    }

    /** Call the operation's method on the store behind the interface. */
    method Perform(op: Op) returns (reply: Reply)
      requires Valid()
      modifies Footprint()
      ensures Valid() && (Value(), reply) == Apply(old(Value()), op)
    {
      hide MemApply, MongoApply;
      match this
      case Memory(m) => {
        match op
        case WriteAhead(exec, state, input, attempt) => reply := m.WriteAheadState(exec, state, input, attempt);
        case MarkRunning(exec, state) => reply := m.MarkRunning(exec, state);
        case Complete(exec, state, output) => reply := m.CompleteState(exec, state, output);
        case Fail(exec, state, message) => reply := m.FailState(exec, state, message);
        case GetOutput(exec, state) => reply := m.GetStateOutput(exec, state);
      }
      case Documents(d) => {
        match op
        case WriteAhead(exec, state, input, attempt) => reply := d.WriteAheadState(exec, state, input, attempt);
        case MarkRunning(exec, state) => reply := d.MarkRunning(exec, state);
        case Complete(exec, state, output) => reply := d.CompleteState(exec, state, output);
        case Fail(exec, state, message) => reply := d.FailState(exec, state, message);
        case GetOutput(exec, state) => reply := d.GetStateOutput(exec, state);
      }
    }
  }
}
