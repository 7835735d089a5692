/** The document store refines the memory store: what relates the two, which operations keep them
    in step, and the round trip of offloaded outputs. */
module MongoRefinement {
  import opened Types
  import opened Keys
  import opened Stores

  type Docs = map<string, StateRecord>

  // ----- documents are filed under their own id, so the latest attempt is unique

  /** Every document is filed under the id made of its own fields. */
  predicate SelfKeyed(docs: Docs) {
    forall id :: id in docs ==> id == DocId(docs[id].exec, docs[id].state, docs[id].attempt)
  }

  predicate WellKeyed(docs: Docs) {
    SelfKeyed(docs) && forall id :: id in docs ==> CleanId(docs[id].exec)
  }

  lemma LatestIs(docs: Docs, exec: string, state: string, id: string)
    requires SelfKeyed(docs) && IsLatest(docs, exec, state, id)
    ensures Latest(docs, exec, state) == Some(id)
  {
    var other := Latest(docs, exec, state).value;
    assert IsLatest(docs, exec, state, other);
  }

  lemma {:induction false} SomeHighest(docs: Docs, ids: set<string>, start: string) returns (top: string)
    requires start in ids && ids <= docs.Keys
    ensures top in ids && forall id :: id in ids ==> docs[id].attempt <= docs[top].attempt
    decreases |ids|
  {
    if ids == {start} {
      top := start;
    } else {
      var other :| other in ids && other != start;
      var low := if docs[start].attempt <= docs[other].attempt then start else other;
      var high := if low == start then other else start;
      top := SomeHighest(docs, ids - {low}, high);
    }
  }

  lemma LatestExists(docs: Docs, exec: string, state: string, id: string)
    requires id in docs && DocOf(docs[id], exec, state)
    ensures Latest(docs, exec, state).Some?
  {
    var ids := set x | x in docs && DocOf(docs[x], exec, state);
    var top := SomeHighest(docs, ids, id);
    assert IsLatest(docs, exec, state, top);
  }

  lemma LatestNone(docs: Docs, exec: string, state: string)
    ensures Latest(docs, exec, state).None? <==> forall id :: id in docs ==> !DocOf(docs[id], exec, state)
  {
    forall id | id in docs && DocOf(docs[id], exec, state) ensures Latest(docs, exec, state).Some? {
      LatestExists(docs, exec, state, id);
    }
  }

  /** Changing a document without its identity changes no latest attempt. */
  lemma LatestUnderUpdate(docs: Docs, id: string, doc: StateRecord, exec: string, state: string)
    requires WellKeyed(docs) && id in docs
    requires doc.exec == docs[id].exec && doc.state == docs[id].state && doc.attempt == docs[id].attempt
    ensures WellKeyed(docs[id := doc])
    ensures Latest(docs[id := doc], exec, state) == Latest(docs, exec, state)
  {
    var docs' := docs[id := doc];
    LatestNone(docs, exec, state);
    LatestNone(docs', exec, state);
    if Latest(docs, exec, state).Some? {
      var top := Latest(docs, exec, state).value;
      assert IsLatest(docs, exec, state, top);
      assert IsLatest(docs', exec, state, top);
      LatestIs(docs', exec, state, top);
    } else {
      assert forall x :: x in docs' ==> !DocOf(docs'[x], exec, state);
    }
  }

  /** Inserting a new attempt: it is the latest of its state when it exceeds the others, and no other
      state's latest changes. */
  lemma LatestUnderInsert(docs: Docs, doc: StateRecord, exec: string, state: string)
    requires WellKeyed(docs) && CleanId(doc.exec)
    requires DocId(doc.exec, doc.state, doc.attempt) !in docs
    ensures WellKeyed(docs[DocId(doc.exec, doc.state, doc.attempt) := doc])
    ensures var id := DocId(doc.exec, doc.state, doc.attempt);
            var previous := Latest(docs, exec, state);
            Latest(docs[id := doc], exec, state) ==
            if DocOf(doc, exec, state) && (previous.None? || docs[previous.value].attempt < doc.attempt) then Some(id) else previous
  {
    var id := DocId(doc.exec, doc.state, doc.attempt);
    var docs' := docs[id := doc];
    LatestNone(docs, exec, state);
    LatestNone(docs', exec, state);
    var previous := Latest(docs, exec, state);
    if previous.Some? {
      assert IsLatest(docs, exec, state, previous.value);
    }
    if DocOf(doc, exec, state) && (previous.None? || docs[previous.value].attempt < doc.attempt) {
      assert IsLatest(docs', exec, state, id);
      LatestIs(docs', exec, state, id);
    } else if previous.Some? {
      assert IsLatest(docs', exec, state, previous.value);
      LatestIs(docs', exec, state, previous.value);
    } else {
      assert forall x :: x in docs' ==> !DocOf(docs'[x], exec, state);
    }
  }

  // ----- offload references

  /** The key is recovered from its reference exactly when the bucket name has no slash. */
  lemma ExtractInvertsExactly(bucket: string, key: string)
    ensures ExtractS3Key(SCHEME + bucket + "/" + key) == key <==> '/' !in bucket
  {
    var ref := SCHEME + bucket + "/" + key;
    var rest := bucket + "/" + key;
    assert ref == SCHEME + rest && ref[|SCHEME|..] == rest && ref[..|SCHEME|] == SCHEME;
    AfterFirstSlash(bucket, key);
  }

  lemma AfterFirstSlash(bucket: string, key: string)
    ensures var rest := bucket + "/" + key; var i := IndexOfSlash(rest);
            i >= 0 && (rest[i + 1..] == key <==> '/' !in bucket)
  {
    var rest := bucket + "/" + key;
    var i := IndexOfSlash(rest);
    assert rest[|bucket|] == '/';
    assert rest == rest[..i] + "/" + rest[i + 1..];
    if '/' !in bucket {
      SplitAtFirst(rest[..i], rest[i + 1..], bucket, key, '/');
    } else {
      var j :| 0 <= j < |bucket| && bucket[j] == '/';
      assert rest[j] == '/';
      assert forall k :: 0 <= k < i ==> rest[k] == rest[..i][k];
      assert |rest[i + 1..]| > |key|;
    }
  }

  predicate Small(codec: Codec, output: Payload) {
    codec.encode(output).Some? && |codec.encode(output).value| <= INLINE_LIMIT
  }

  /** An output the document store accepts: JSON can express it, and it fits or can be offloaded. */
  predicate Storable(codec: Codec, bucket: Option<string>, output: Payload) {
    codec.encode(output).Some? && (Small(codec, output) || bucket.Some?)
  }

  /** An inline output that reads as an offload reference. */
  predicate Mistakable(codec: Codec, output: Payload) {
    Small(codec, output) && RefShaped(output)
  }

  /** Objects are only ever large encoded outputs; the bucket has no slash. */
  ghost predicate WellKept(codec: Codec, d: Mongo) {
    && WellKeyed(d.docs)
    && (d.bucket.Some? ==> '/' !in d.bucket.value)
    && forall k :: k in d.objects ==> BigObject(codec, d.objects[k])
  }

  ghost predicate BigObject(codec: Codec, bytes: Bytes) {
    |bytes| > INLINE_LIMIT && exists p :: codec.encode(p) == Some(bytes)
  }

  /** How the latest document holds a completed output: inline, or by reference to its own object. */
  ghost predicate OutputKept(codec: Codec, d: Mongo, doc: StateRecord, output: Payload) {
    || (doc.output == output && !RefShaped(output))
    || (&& d.bucket.Some?
        && var key := ObjectKey(doc.exec, doc.state, doc.attempt);
           && doc.output == Reference(d.bucket.value, key)
           && key in d.objects && codec.decode(d.objects[key]) == Some(output))
  }

  lemma KeptOutputReads(codec: Codec, d: Mongo, doc: StateRecord, output: Payload)
    requires d.bucket.Some? ==> '/' !in d.bucket.value
    requires OutputKept(codec, d, doc, output)
    ensures Dereference(codec, d, doc.output) == Read(output)
  {
    if !(doc.output == output && !RefShaped(output)) {
      ExtractInvertsExactly(d.bucket.value, ObjectKey(doc.exec, doc.state, doc.attempt));
    }
  }

  /** A mistakable output is never what the store would give back: objects are larger than it is. */
  lemma MistakableIsLost(codec: Codec, d: Mongo, output: Payload)
    requires Faithful(codec) && WellKept(codec, d) && Mistakable(codec, output)
    ensures Dereference(codec, d, output) != Read(output)
    ensures forall doc: StateRecord :: doc.output == output ==> !OutputKept(codec, d, doc, output)
  {
    forall k | k in d.objects ensures codec.decode(d.objects[k]) != Some(output) {
      assert BigObject(codec, d.objects[k]);
      var p :| codec.encode(p) == Some(d.objects[k]);
      assert codec.decode(codec.encode(p).value) == Some(p);
    }
  }

  /** A reference is a map of the one entry `_ref` with a text that is not empty. */
  lemma RefShapedExactly(output: Payload)
    ensures RefShaped(output) <==> exists ref :: ref != "" && output == map["_ref" := Text(ref)]
  {
    if RefShaped(output) {
      var ref := output[REF_KEY].s;
      assert output.Keys - {REF_KEY} == {} by {
        assert |output.Keys - {REF_KEY}| == |output.Keys| - 1;
      }
      assert output == map["_ref" := Text(ref)];
    }
  }

  /** An accepted write-ahead files the attempt as pending, with its input and with no output and no error,
      whatever was on file before. */
  lemma AcceptedWriteAhead(s: Store, exec: string, state: string, input: Payload, attempt: int)
    requires Apply(s, WriteAhead(exec, state, input, attempt)).1 == Done
    ensures var s' := Apply(s, WriteAhead(exec, state, input, attempt)).0;
            var records := if s'.Mem? then s'.states else s'.mongo.docs;
            var key := if s.Mem? then StateKey(exec, state) else DocId(exec, state, attempt);
      && s'.Mem? == s.Mem? && key in records
      && records[key] == StateRecord(exec, state, Pending, input, map[], "", attempt)
  {
  }

  /** A write-ahead is refused in one way only. */
  lemma WriteAheadRefusal(s: Store, op: Op)
    requires op.WriteAhead? && Apply(s, op).1.Refused?
    ensures Apply(s, op).1 == Refused(StateAlreadyTerminal)
  {
  }

  /** An operation that is refused, by either store, has changed nothing. */
  lemma RefusedChangesNothing(s: Store, op: Op)
    requires Apply(s, op).1.Refused?
    ensures Apply(s, op).0 == s
  {
    hide HasCompleted, Dereference, Latest;
  }

  /** Reading through a reference fails only for a missing object or object store, never in decoding, since
      objects are only ever written by completions. */
  lemma DereferenceFailsExactly(codec: Codec, d: Mongo, output: Payload)
    requires Faithful(codec) && WellKept(codec, d)
    ensures var r := Dereference(codec, d, output);
      && (r == Refused(ObjectStoreAbsent) <==> RefShaped(output) && d.bucket.None?)
      && (r == Refused(ObjectMissing) <==> RefShaped(output) && d.bucket.Some? && ExtractS3Key(output[REF_KEY].s) !in d.objects)
      && (r.Read? || r == Refused(ObjectStoreAbsent) || r == Refused(ObjectMissing))
  {
    if RefShaped(output) && d.bucket.Some? && ExtractS3Key(output[REF_KEY].s) in d.objects {
      var bytes := d.objects[ExtractS3Key(output[REF_KEY].s)];
      assert BigObject(codec, bytes);
      var p :| codec.encode(p) == Some(bytes);
      assert codec.decode(codec.encode(p).value) == Some(p);
    }
  }

  // ----- the relation

  /** One state's record and its latest document say the same. */
  ghost predicate Matches(codec: Codec, m: States, d: Mongo, exec: string, state: string) {
    match (MemLookup(m, exec, state), MongoLookup(d, exec, state))
    case (None, None) => true
    case (Some(r), Some(doc)) =>
      && r.(output := map[]) == doc.(output := map[])
      && (r.status == Completed ==> OutputKept(codec, d, doc, r.output))
    case _ => false
  }

  /** Only the highest attempt of a state can be Completed. */
  ghost predicate OnlyLatestCompleted(docs: Docs) {
    forall id :: id in docs && docs[id].status == Completed ==> IsLatest(docs, docs[id].exec, docs[id].state, id)
  }

  ghost predicate Related(codec: Codec, m: States, d: Mongo) {
    && WellKept(codec, d)
    && OnlyLatestCompleted(d.docs)
    && forall exec, state :: CleanId(exec) ==> Matches(codec, m, d, exec, state)
  }

  lemma EmptyStoresRelated(codec: Codec, bucket: Option<string>)
    requires bucket.Some? ==> '/' !in bucket.value
    ensures Related(codec, map[], Mongo(map[], map[], bucket))
  {
  }

  /** Which operations keep the two stores in step: a write-ahead of a state that is not completed must
      raise the attempt number, and a completion must be storable and not mistakable. */
  predicate Admissible(codec: Codec, bucket: Option<string>, m: States, op: Op) {
    match op
    case WriteAhead(exec, state, _, attempt) =>
      var r := MemLookup(m, exec, state);
      r.None? || r.value.status == Completed || r.value.attempt < attempt
    case Complete(exec, state, output) =>
      Storable(codec, bucket, output) && (MemLookup(m, exec, state).None? || !Mistakable(codec, output))
    case _ => true
  }

  ghost predicate InStep(codec: Codec, m: States, d: Mongo, op: Op) {
    && MemApply(m, op).1 == MongoApply(codec, d, op).1
    && Related(codec, MemApply(m, op).0, MongoApply(codec, d, op).0)
  }

  // ----- write-ahead

  lemma CompletedOnBothOrNeither(codec: Codec, m: States, d: Mongo, exec: string, state: string)
    requires Related(codec, m, d) && CleanId(exec)
    ensures HasCompleted(d.docs, exec, state) <==>
            MemLookup(m, exec, state).Some? && MemLookup(m, exec, state).value.status == Completed
  {
    assert Matches(codec, m, d, exec, state);
    if HasCompleted(d.docs, exec, state) {
      var id :| id in d.docs && DocOf(d.docs[id], exec, state) && d.docs[id].status == Completed;
      LatestIs(d.docs, exec, state, id);
    } else if Latest(d.docs, exec, state).Some? {
      assert IsLatest(d.docs, exec, state, Latest(d.docs, exec, state).value);
    }
  }

  lemma MatchesAfterInsert(codec: Codec, m: States, d: Mongo, op: Op, exec: string, state: string)
    requires Related(codec, m, d) && op.WriteAhead? && CleanId(op.exec) && CleanId(exec)
    requires DocId(op.exec, op.state, op.attempt) !in d.docs
    requires MemLookup(m, op.exec, op.state).None? || MemLookup(m, op.exec, op.state).value.attempt < op.attempt
    ensures var pending := Fresh(op.exec, op.state, op.input, op.attempt);
            Matches(codec, m[StateKey(op.exec, op.state) := pending],
                    d.(docs := d.docs[DocId(op.exec, op.state, op.attempt) := pending]), exec, state)
  {
    assert Matches(codec, m, d, exec, state);
    LatestUnderInsert(d.docs, Fresh(op.exec, op.state, op.input, op.attempt), exec, state);
    StateKeyInjectiveAcross(op.exec, op.state, exec, state);
  }

  /** An attempt number above the latest is not taken. */
  lemma NewAttemptIsNew(docs: Docs, exec: string, state: string, attempt: int)
    requires WellKeyed(docs) && CleanId(exec)
    requires var top := Latest(docs, exec, state); top.None? || docs[top.value].attempt < attempt
    ensures DocId(exec, state, attempt) !in docs
  {
    LatestNone(docs, exec, state);
    forall id | id in docs ensures id != DocId(exec, state, attempt) {
      DocIdInjective(exec, state, attempt, docs[id].exec, docs[id].state, docs[id].attempt);
      if Latest(docs, exec, state).Some? {
        assert IsLatest(docs, exec, state, Latest(docs, exec, state).value);
      }
    }
  }

  lemma WriteAheadKeepsStep(codec: Codec, m: States, d: Mongo, op: Op)
    requires Related(codec, m, d) && op.WriteAhead? && CleanId(op.exec)
    requires Admissible(codec, d.bucket, m, op)
    ensures InStep(codec, m, d, op)
  {
    CompletedOnBothOrNeither(codec, m, d, op.exec, op.state);
    if !HasCompleted(d.docs, op.exec, op.state) {
      var pending := Fresh(op.exec, op.state, op.input, op.attempt);
      var id := DocId(op.exec, op.state, op.attempt);
      assert Matches(codec, m, d, op.exec, op.state);
      LatestNone(d.docs, op.exec, op.state);
      NewAttemptIsNew(d.docs, op.exec, op.state, op.attempt);
      LatestUnderInsert(d.docs, pending, op.exec, op.state);
      InsertKeepsOnlyLatest(d.docs, pending);
      var m', d' := m[StateKey(op.exec, op.state) := pending], d.(docs := d.docs[id := pending]);
      forall exec, state | CleanId(exec) ensures Matches(codec, m', d', exec, state) {
        MatchesAfterInsert(codec, m, d, op, exec, state);
      }
    }
  }

  lemma InsertKeepsOnlyLatest(docs: Docs, doc: StateRecord)
    requires OnlyLatestCompleted(docs) && doc.status == Pending
    requires !HasCompleted(docs, doc.exec, doc.state)
    ensures OnlyLatestCompleted(docs[DocId(doc.exec, doc.state, doc.attempt) := doc])
  {
    var id := DocId(doc.exec, doc.state, doc.attempt);
    var docs' := docs[id := doc];
    forall x | x in docs' && docs'[x].status == Completed
      ensures IsLatest(docs', docs'[x].exec, docs'[x].state, x)
    {
      assert x != id && docs'[x] == docs[x];
      assert IsLatest(docs, docs[x].exec, docs[x].state, x);
    }
  }

  /** A write-ahead that does not raise the attempt is refused as terminal by one store and accepted by the
      other, or accepted by both and then read back differently. */
  lemma WriteAheadFallsOut(codec: Codec, m: States, d: Mongo, op: Op)
    requires Related(codec, m, d) && op.WriteAhead? && CleanId(op.exec)
    requires !Admissible(codec, d.bucket, m, op)
    ensures !InStep(codec, m, d, op)
  {
    CompletedOnBothOrNeither(codec, m, d, op.exec, op.state);
    assert Matches(codec, m, d, op.exec, op.state);
    var id := DocId(op.exec, op.state, op.attempt);
    var (m', d') := (MemApply(m, op).0, MongoApply(codec, d, op).0);
    if id !in d.docs {
      var top := Latest(d.docs, op.exec, op.state).value;
      assert IsLatest(d.docs, op.exec, op.state, top);
      assert d.docs[top].attempt != op.attempt;
      LatestUnderInsert(d.docs, Fresh(op.exec, op.state, op.input, op.attempt), op.exec, op.state);
      assert !Matches(codec, m', d', op.exec, op.state);
    }
  }

  // ----- updates of the latest attempt

  /** r and doc are the new record and the new latest document of one state, changed alike; the object
      store may change only under that document's key. */
  ghost predicate SameUpdate(codec: Codec, m: States, d: Mongo, exec: string, state: string,
                             r: StateRecord, doc: StateRecord, objects: map<string, Bytes>) {
    && CleanId(exec) && MemLookup(m, exec, state).Some? && Latest(d.docs, exec, state).Some?
    && (forall k :: k in objects ==> BigObject(codec, objects[k]))
    && (forall k :: k in d.objects && k != ObjectKey(exec, state, doc.attempt) ==> k in objects && objects[k] == d.objects[k])
    && var id := Latest(d.docs, exec, state).value;
       && id in d.docs
       && doc.exec == d.docs[id].exec && doc.state == d.docs[id].state && doc.attempt == d.docs[id].attempt
       && r.(output := map[]) == doc.(output := map[])
       && (r.status == Completed ==> OutputKept(codec, d.(docs := d.docs[id := doc], objects := objects), doc, r.output))
  }

  lemma MatchesAfterUpdate(codec: Codec, m: States, d: Mongo, exec: string, state: string,
                           r: StateRecord, doc: StateRecord, objects: map<string, Bytes>, e: string, n: string)
    requires Related(codec, m, d) && SameUpdate(codec, m, d, exec, state, r, doc, objects) && CleanId(e)
    ensures Matches(codec, m[StateKey(exec, state) := r],
                    d.(docs := d.docs[Latest(d.docs, exec, state).value := doc], objects := objects), e, n)
  {
    hide StateKey, ObjectKey, Reference, RefShaped;
    var id := Latest(d.docs, exec, state).value;
    assert IsLatest(d.docs, exec, state, id);
    assert Matches(codec, m, d, e, n);
    LatestUnderUpdate(d.docs, id, doc, e, n);
    StateKeyInjectiveAcross(exec, state, e, n);
    if (e != exec || n != state) && Latest(d.docs, e, n).Some? {
      var top := Latest(d.docs, e, n).value;
      assert IsLatest(d.docs, e, n, top);
      ObjectKeyInjective(exec, state, doc.attempt, e, n, d.docs[top].attempt);
    }
  }

  /** Both stores change one record and its latest document alike; nothing else moves. */
  lemma UpdateKeepsRelated(codec: Codec, m: States, d: Mongo, exec: string, state: string,
                           r: StateRecord, doc: StateRecord, objects: map<string, Bytes>)
    requires Related(codec, m, d) && SameUpdate(codec, m, d, exec, state, r, doc, objects)
    ensures Related(codec, m[StateKey(exec, state) := r],
                    d.(docs := d.docs[Latest(d.docs, exec, state).value := doc], objects := objects))
  {
    var id := Latest(d.docs, exec, state).value;
    assert IsLatest(d.docs, exec, state, id);
    var m', d' := m[StateKey(exec, state) := r], d.(docs := d.docs[id := doc], objects := objects);
    LatestUnderUpdate(d.docs, id, doc, exec, state);
    forall e, n | CleanId(e) ensures Matches(codec, m', d', e, n) {
      MatchesAfterUpdate(codec, m, d, exec, state, r, doc, objects, e, n);
    }
    UpdateKeepsOnlyLatest(d.docs, id, doc);
  }

  lemma UpdateKeepsOnlyLatest(docs: Docs, id: string, doc: StateRecord)
    requires OnlyLatestCompleted(docs) && id in docs && IsLatest(docs, docs[id].exec, docs[id].state, id)
    requires doc.exec == docs[id].exec && doc.state == docs[id].state && doc.attempt == docs[id].attempt
    ensures OnlyLatestCompleted(docs[id := doc])
  {
    var docs' := docs[id := doc];
    forall x | x in docs' && docs'[x].status == Completed
      ensures IsLatest(docs', docs'[x].exec, docs'[x].state, x)
    {
      assert IsLatest(docs, docs[x].exec, docs[x].state, x);
    }
  }

  lemma MarkOrFailKeepsStep(codec: Codec, m: States, d: Mongo, op: Op)
    requires Related(codec, m, d) && (op.MarkRunning? || op.Fail?) && CleanId(op.exec)
    ensures InStep(codec, m, d, op)
  {
    assert Matches(codec, m, d, op.exec, op.state);
    if MemLookup(m, op.exec, op.state).Some? {
      var r := MemLookup(m, op.exec, op.state).value;
      var doc := MongoLookup(d, op.exec, op.state).value;
      UpdateKeepsRelated(codec, m, d, op.exec, op.state,
                         RecordAfter(Some(r), op).value, RecordAfter(Some(doc), op).value, d.objects);
    }
  }

  lemma GetOutputKeepsStep(codec: Codec, m: States, d: Mongo, op: Op)
    requires Related(codec, m, d) && op.GetOutput? && CleanId(op.exec)
    ensures InStep(codec, m, d, op)
  {
    assert Matches(codec, m, d, op.exec, op.state);
    if MemLookup(m, op.exec, op.state).Some? {
      var r, doc := MemLookup(m, op.exec, op.state).value, MongoLookup(d, op.exec, op.state).value;
      if r.status == Completed {
        KeptOutputReads(codec, d, doc, r.output);
      }
    }
  }

  lemma CompleteKeepsStep(codec: Codec, m: States, d: Mongo, op: Op)
    requires Faithful(codec) && Related(codec, m, d) && op.Complete? && CleanId(op.exec)
    requires Admissible(codec, d.bucket, m, op)
    ensures InStep(codec, m, d, op)
  {
    assert Matches(codec, m, d, op.exec, op.state);
    if MemLookup(m, op.exec, op.state).Some? {
      var r := MemLookup(m, op.exec, op.state).value;
      var id := Latest(d.docs, op.exec, op.state).value;
      assert IsLatest(d.docs, op.exec, op.state, id);
      var doc := d.docs[id];
      var r' := r.(status := Completed, output := op.output);
      if Small(codec, op.output) {
        UpdateKeepsRelated(codec, m, d, op.exec, op.state, r', doc.(status := Completed, output := op.output), d.objects);
      } else {
        var key, bytes := ObjectKey(op.exec, op.state, doc.attempt), codec.encode(op.output).value;
        assert BigObject(codec, bytes);
        UpdateKeepsRelated(codec, m, d, op.exec, op.state, r',
                           doc.(status := Completed, output := Reference(d.bucket.value, key)), d.objects[key := bytes]);
      }
    }
  }

  lemma CompleteFallsOut(codec: Codec, m: States, d: Mongo, op: Op)
    requires Faithful(codec) && Related(codec, m, d) && op.Complete? && CleanId(op.exec)
    requires !Admissible(codec, d.bucket, m, op)
    ensures !InStep(codec, m, d, op)
  {
    assert Matches(codec, m, d, op.exec, op.state);
    if Storable(codec, d.bucket, op.output) {
      var id := Latest(d.docs, op.exec, op.state).value;
      assert IsLatest(d.docs, op.exec, op.state, id);
      var doc' := d.docs[id].(status := Completed, output := op.output);
      var (m', d') := (MemApply(m, op).0, MongoApply(codec, d, op).0);
      assert d' == d.(docs := d.docs[id := doc']);
      LatestUnderUpdate(d.docs, id, doc', op.exec, op.state);
      MistakableIsLost(codec, d', op.output);
      assert !Matches(codec, m', d', op.exec, op.state);
    }
  }

  /** From related stores, one operation gets the same reply from both and leaves them related exactly
      when it is admissible. */
  lemma InStepExactlyWhenAdmissible(codec: Codec, m: States, d: Mongo, op: Op)
    requires Faithful(codec) && Related(codec, m, d) && CleanId(op.exec)
    ensures InStep(codec, m, d, op) <==> Admissible(codec, d.bucket, m, op)
  {
    match op
    case WriteAhead(_, _, _, _) =>
      if Admissible(codec, d.bucket, m, op) { WriteAheadKeepsStep(codec, m, d, op); } else { WriteAheadFallsOut(codec, m, d, op); }
    case Complete(_, _, _) =>
      if Admissible(codec, d.bucket, m, op) { CompleteKeepsStep(codec, m, d, op); } else { CompleteFallsOut(codec, m, d, op); }
    case GetOutput(_, _) => GetOutputKeepsStep(codec, m, d, op);
    case MarkRunning(_, _) => MarkOrFailKeepsStep(codec, m, d, op);
    case Fail(_, _, _) => MarkOrFailKeepsStep(codec, m, d, op);
  }

  // ----- operation sequences

  /** The store after a sequence of operations, and the replies in order. */
  function MemRun(m: States, ops: seq<Op>): (States, seq<Reply>)
    decreases ops
  {
    if ops == [] then (m, []) else
      var (m1, r) := MemApply(m, ops[0]);
      var (m', rest) := MemRun(m1, ops[1..]);
      (m', [r] + rest)
  }

  ghost function MongoRun(codec: Codec, d: Mongo, ops: seq<Op>): (Mongo, seq<Reply>)
    decreases ops
  {
    if ops == [] then (d, []) else
      var (d1, r) := MongoApply(codec, d, ops[0]);
      var (d', rest) := MongoRun(codec, d1, ops[1..]);
      (d', [r] + rest)
  }

  predicate AllAdmissible(codec: Codec, bucket: Option<string>, m: States, ops: seq<Op>)
    decreases ops
  {
    ops == [] || (&& CleanId(ops[0].exec) && Admissible(codec, bucket, m, ops[0])
                  && AllAdmissible(codec, bucket, MemApply(m, ops[0]).0, ops[1..]))
  }

  lemma BucketIsFixed(codec: Codec, d: Mongo, op: Op)
    ensures MongoApply(codec, d, op).0.bucket == d.bucket
  {
  }

  /** Over any sequence of admissible operations, on any number of executions and states, the document
      store answers exactly as the memory store does, and stays related to it. */
  lemma {:induction false} MongoRefinesMemory(codec: Codec, m: States, d: Mongo, ops: seq<Op>)
    requires Faithful(codec) && Related(codec, m, d) && AllAdmissible(codec, d.bucket, m, ops)
    ensures MongoRun(codec, d, ops).1 == MemRun(m, ops).1
    ensures Related(codec, MemRun(m, ops).0, MongoRun(codec, d, ops).0)
    decreases ops
  {
    hide Related, MongoApply, MemApply, Admissible;
    if ops != [] {
      InStepExactlyWhenAdmissible(codec, m, d, ops[0]);
      BucketIsFixed(codec, d, ops[0]);
      MongoRefinesMemory(codec, MemApply(m, ops[0]).0, MongoApply(codec, d, ops[0]).0, ops[1..]);
    }
  }

  // ----- offload round trip

  /** Completing the latest attempt with a storable output and reading it back returns that output, on
      either side of the size threshold, exactly when the output cannot be mistaken for a reference. */
  lemma OffloadRoundTripExactly(codec: Codec, d: Mongo, exec: string, state: string, output: Payload)
    requires Faithful(codec) && WellKept(codec, d) && CleanId(exec)
    requires Latest(d.docs, exec, state).Some? && Storable(codec, d.bucket, output)
    ensures var (d', r) := MongoApply(codec, d, Complete(exec, state, output));
            r == Done && (MongoApply(codec, d', GetOutput(exec, state)).1 == Read(output) <==> !Mistakable(codec, output))
  {
    var id := Latest(d.docs, exec, state).value;
    assert IsLatest(d.docs, exec, state, id);
    var d' := MongoApply(codec, d, Complete(exec, state, output)).0;
    var doc' := d'.docs[id];
    LatestUnderUpdate(d.docs, id, doc', exec, state);
    if Mistakable(codec, output) {
      MistakableIsLost(codec, d', output);
    } else {
      KeptOutputReads(codec, d', doc', output);
    }
  }
}
