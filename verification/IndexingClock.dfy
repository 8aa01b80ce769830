/** What the record manager's clock must do for a run to succeed and for the stores to agree. */
module IndexingClock {
  import opened Wrappers
  import opened Indexing
  import opened IndexingProofs

  // ---- a clock that does not fall below the start ----

  /** No reading from the given one on is below the start time; between such readings the clock may go back. */
  ghost predicate NeverBelow(env: Env, from: nat) { forall i: nat | from <= i :: env.start <= env.clock(i) }

  predicate Acceptable(env: Env, d: Document) {
    !HasReservedKey(d) && (env.cleanup == Incremental ==> !IsFalsy(Source(env, d)))
  }

  lemma StoreSucceeds(env: Env, st: State, c: Counters, docs: seq<Document>)
    requires NeverBelow(env, st.ticks)
    ensures var o := Store(env, st, c, docs);
            o.result.Ok? && st.ticks <= o.st.ticks
  {
    assert env.start <= env.clock(st.ticks) && env.start <= env.clock(st.ticks + 1);
  }

  lemma AcceptableIsNotRefused(env: Env, batch: seq<Document>)
    requires forall d | d in batch :: Acceptable(env, d)
    ensures Refusal(env, batch) == None
    ensures env.cleanup == Incremental ==>
            forall v | v in Sources(Deduplicated(batch, env.hash, {}), env) :: !IsFalsy(v)
  {
    hide Deduplicated;
    var docs := Deduplicated(batch, env.hash, {});
    DeduplicatedIsDistinct(batch, env.hash, {});
    if env.cleanup == Incremental {
      forall v | v in Sources(docs, env) ensures !IsFalsy(v) {
        var i :| 0 <= i < |docs| && Sources(docs, env)[i] == v;
        assert docs[i] in docs;
      }
    }
    assert IsFalsy(Null);
  }

  lemma AcceptableBatchSucceeds(env: Env, st: State, c: Counters, batch: seq<Document>)
    requires NeverBelow(env, st.ticks)
    requires forall d | d in batch :: Acceptable(env, d)
    ensures var o := RunBatch(env, st, c, batch);
            o.result.Ok? && st.ticks <= o.st.ticks
  {
    hide Store;
    hide Deduplicated;
    hide Refusal;
    AcceptableIsNotRefused(env, batch);
    StoreSucceeds(env, st, c, Deduplicated(batch, env.hash, {}));
  }

  /** With a clock that is never below the start time, documents without reserved keys, and sources where they are
      needed, a run throws nothing. */
  lemma {:induction false} AcceptableRunsSucceed(env: Env, st: State, c: Counters, batches: seq<seq<Document>>)
    requires NeverBelow(env, st.ticks)
    requires forall d | d in Flatten(batches) :: Acceptable(env, d)
    ensures RunBatches(env, st, c, batches).result.Ok?
    decreases |batches|
  {
    if batches != [] {
      var first := RunBatch(env, st, c, batches[0]);
      forall d | d in batches[0] ensures Acceptable(env, d) { assert d in Flatten(batches); }
      AcceptableBatchSucceeds(env, st, c, batches[0]);
      forall d | d in Flatten(batches[1..]) ensures Acceptable(env, d) { assert d in Flatten(batches); }
      AcceptableRunsSucceed(env, first.st, first.result.value, batches[1..]);
    }
  }

  /** Some document that survives deduplication has this kind of source. */
  predicate HasSource(env: Env, batch: seq<Document>, p: Value -> bool) {
    exists d | d in Deduplicated(batch, env.hash, {}) :: p(Source(env, d))
  }

  predicate IsNull(v: Value) { v.Null? }

  /** What a batch is refused for under such a clock, in this order: a reserved key, a source that is null, a source
      that is missing or empty; and for nothing else. */
  lemma BatchErrors(env: Env, st: State, c: Counters, batch: seq<Document>)
    requires NeverBelow(env, st.ticks)
    ensures RunBatch(env, st, c, batch).result
         == if exists d | d in batch :: HasReservedKey(d) then Err(ReservedMetadata)
            else if env.cleanup == Incremental && HasSource(env, batch, IsNull) then Err(SourceMissing)
            else if env.cleanup == Incremental && HasSource(env, batch, IsFalsy) then Err(SourceEmpty)
            else RunBatch(env, st, c, batch).result
    ensures RunBatch(env, st, c, batch).result.Ok? <==>
            && (forall d | d in batch :: !HasReservedKey(d))
            && (env.cleanup == Incremental ==> !HasSource(env, batch, IsFalsy))
  {
    hide Store;
    hide Deduplicated;
    hide HasReservedKey;
    var docs := Deduplicated(batch, env.hash, {});
    var sources := Sources(docs, env);
    StoreSucceeds(env, st, c, docs);
    forall d | d in docs ensures Source(env, d) in sources {
      var i :| 0 <= i < |docs| && docs[i] == d;
      assert sources[i] == Source(env, d);
    }
    forall v | v in sources ensures exists d | d in docs :: Source(env, d) == v {
      var i :| 0 <= i < |docs| && sources[i] == v;
      assert docs[i] in docs;
    }
  }

  /** Under such a clock a run throws nothing if and only if every batch is fit for it. */
  lemma {:induction false} RunsSucceedIff(env: Env, st: State, c: Counters, batches: seq<seq<Document>>)
    requires NeverBelow(env, st.ticks)
    ensures RunBatches(env, st, c, batches).result.Ok? <==>
            forall i | 0 <= i < |batches| ::
              && (forall d | d in batches[i] :: !HasReservedKey(d))
              && (env.cleanup == Incremental ==> !HasSource(env, batches[i], IsFalsy))
    decreases |batches|
  {
    hide RunBatch;
    hide HasSource;
    hide HasReservedKey;
    if batches != [] {
      var first, rest := RunBatch(env, st, c, batches[0]), batches[1..];
      BatchErrors(env, st, c, batches[0]);
      BatchTicks(env, st, c, batches[0]);
      assert forall i | 1 <= i < |batches| :: batches[i] == rest[i - 1];
      assert forall i | 0 <= i < |rest| :: rest[i] == batches[i + 1];
      if first.result.Ok? { RunsSucceedIff(env, first.st, first.result.value, rest); }
    }
  }

  lemma BatchTicks(env: Env, st: State, c: Counters, batch: seq<Document>)
    requires NeverBelow(env, st.ticks)
    ensures st.ticks <= RunBatch(env, st, c, batch).st.ticks
  {
    hide Store;
    hide Deduplicated;
    hide Refusal;
    StoreSucceeds(env, st, c, Deduplicated(batch, env.hash, {}));
  }

  /** Nothing is refused for its time. */
  lemma {:induction false} NoTimeSync(env: Env, st: State, c: Counters, batches: seq<seq<Document>>)
    requires NeverBelow(env, st.ticks)
    ensures RunBatches(env, st, c, batches).result != Err(TimeSync)
    decreases |batches|
  {
    if batches != [] {
      hide Deduplicated;
      hide Refusal;
      hide Store;
      var first := RunBatch(env, st, c, batches[0]);
      StoreSucceeds(env, st, c, Deduplicated(batches[0], env.hash, {}));
      assert first.result != Err(TimeSync) by { RefusalIsNoTimeSync(env, batches[0]); }
      if first.result.Ok? { NoTimeSync(env, first.st, first.result.value, batches[1..]); }
    }
  }

  lemma RefusalIsNoTimeSync(env: Env, batch: seq<Document>)
    ensures Refusal(env, batch) != Some(TimeSync)
  {
  }

  // ---- new documents, one by one ----

  /** Documents of different hashes that no record knows, all of them acceptable. */
  ghost predicate NewDocuments(env: Env, records: map<Key, Record>, docs: seq<Document>) {
    && (forall i | 0 <= i < |docs| :: Acceptable(env, docs[i]) && env.hash(docs[i]) !in records)
    && (forall i, j | 0 <= i < j < |docs| :: env.hash(docs[i]) != env.hash(docs[j]))
  }

  lemma OneDocument(env: Env, st: State, d: Document)
    requires Acceptable(env, d) && env.hash(d) !in st.records
    ensures RoundParts(env, st, [d]) <==> env.clock(st.ticks) < env.start
  {
    var none: seq<Document> := [];
    assert [d][1..] == none;
    assert Deduplicated([d], env.hash, {}) == [d];
    assert Skipped([d], env, st.records) == [];
    assert d in [d] && env.hash(d) in HashSet([d], env.hash);
    AcceptableIsNotRefused(env, [d]);
  }

  /** A document that is stored takes one reading, and adds its hash to the records. */
  lemma OneDocumentStored(env: Env, st: State, c: Counters, d: Document)
    requires Acceptable(env, d) && env.hash(d) !in st.records && env.start <= env.clock(st.ticks)
    ensures var o := RunBatch(env, st, c, [d]);
            o.result.Ok? && o.st.ticks == st.ticks + 1 && o.st.records.Keys <= st.records.Keys + {env.hash(d)}
  {
    var none: seq<Document> := [];
    assert [d][1..] == none;
    assert Deduplicated([d], env.hash, {}) == [d];
    assert Skipped([d], env, st.records) == [];
    assert HashSet([d], env.hash) == {env.hash(d)};
    AcceptableIsNotRefused(env, [d]);
    WriteFacts(env, st, [d]);
    UpdateFacts(env, Write(env, st, [d]).st, [d], Groups([d], env));
  }

  lemma {:induction false} SmallBatches(size: int, docs: seq<Document>)
    requires size <= 1
    ensures Batches(size, docs) == Batches(1, docs)
    decreases |docs|
  {
    if docs != [] { SmallBatches(size, docs[1..]); }
  }

  /** Documents that are all new, each a batch of its own: the stores agree after the run exactly when none of the
      readings that stamp them is below the start. */
  lemma {:induction false} OneByOne(env: Env, st: State, c: Counters, docs: seq<Document>)
    requires InStep(st) && NewDocuments(env, st.records, docs)
    ensures InStep(RunBatches(env, st, c, Batches(1, docs)).st)
            <==> forall i: nat | st.ticks <= i < st.ticks + |docs| :: env.start <= env.clock(i)
    decreases |docs|
  {
    hide RunBatch;
    hide RoundParts;
    hide Acceptable;
    if docs != [] {
      var d, rest := docs[0], docs[1..];
      assert docs == [d] + rest;
      FirstBatch(1, [d], rest);
      RunBatchPartsIff(env, st, c, [d]);
      RunBatchKeeps(env, st, c, [d]);
      OneDocument(env, st, d);
      if env.start <= env.clock(st.ticks) {
        var first := RunBatch(env, st, c, [d]);
        OneDocumentStored(env, st, c, d);
        assert forall i | 0 <= i < |rest| :: rest[i] == docs[i + 1];
        OneByOne(env, first.st, first.result.value, rest);
      }
    }
  }

  /** The whole of `index` over documents that are all new, one by one. */
  lemma IndexOneByOne(hash: Document -> Key, opts: Options, clock: nat -> nat, st: State, docs: seq<Document>)
    requires InStep(st) && opts.batchSize <= 1 && !(opts.cleanup == Incremental && IsMissing(opts.sourceIdKey))
    requires NewDocuments(MakeEnv(hash, opts, clock, clock(st.ticks)), st.records, docs)
    ensures InStep(Run(hash, opts, clock, st, docs).st)
            <==> forall i: nat | st.ticks < i <= st.ticks + |docs| :: clock(st.ticks) <= clock(i)
  {
    hide RunBatches;
    hide Acceptable;
    hide ReachesParting;
    var env, read := MakeEnv(hash, opts, clock, clock(st.ticks)), st.(ticks := st.ticks + 1);
    SmallBatches(opts.batchSize, docs);
    OneByOne(env, read, NO_COUNTS, docs);
    RunFromPartsIff(env, read, opts.batchSize, docs);
    RunBatchesPartIff(env, read, NO_COUNTS, Batches(opts.batchSize, docs));
  }

  function BackwardsClock(i: nat): nat { if i == 0 then 5 else 4 }

  /** A clock that goes back after a new document was written but before it is recorded. */
  lemma ClockGoingBackPartsTheStores(hash: Document -> Key)
    ensures var opts := Options(1, NoCleanup, NoSource, 1, false);
            !InStep(Run(hash, opts, BackwardsClock, State(map[], map[], 0), [Document("a", map[])]).st)
  {
    hide Run;
    var opts, st, docs := Options(1, NoCleanup, NoSource, 1, false), State(map[], map[], 0), [Document("a", map[])];
    IndexOneByOne(hash, opts, BackwardsClock, st, docs);
    assert BackwardsClock(1) < BackwardsClock(0);
  }

  // ---- every list of documents ----

  /** Under such a clock the stores agree after every run, thrown errors included. */
  lemma RunUnderAFairClock(hash: Document -> Key, opts: Options, clock: nat -> nat, st: State, docs: seq<Document>)
    requires InStep(st) && forall i: nat | st.ticks < i :: clock(st.ticks) <= clock(i)
    ensures InStep(Run(hash, opts, clock, st, docs).st)
  {
    hide RunFrom;
    var env, read := MakeEnv(hash, opts, clock, clock(st.ticks)), st.(ticks := st.ticks + 1);
    NoTimeSyncFrom(env, read, opts.batchSize, docs);
    RunFromKeeps(env, read, opts.batchSize, docs);
  }

  lemma NoTimeSyncFrom(env: Env, st: State, batchSize: int, docs: seq<Document>)
    requires NeverBelow(env, st.ticks)
    ensures RunFrom(env, st, batchSize, docs).result != Err(TimeSync)
  {
    NoTimeSync(env, st, NO_COUNTS, Batches(batchSize, docs));
  }

  function Letters(n: nat): string { if n == 0 then "" else "a" + Letters(n - 1) }

  lemma {:induction false} LettersLength(n: nat)
    ensures |Letters(n)| == n
  {
    if n > 0 { LettersLength(n - 1); }
  }

  /** The n-th document of an endless supply; it has the metadata that a string source key asks for. */
  function Supply(key: SourceKey, n: nat): Document {
    Document(Letters(n), if key.MetadataKey? then map[key.name := Text("source")] else map[])
  }

  /** Different documents of the supply have different hashes. */
  ghost predicate TellsApart(hash: Document -> Key, key: SourceKey) {
    forall m: nat, n: nat {:trigger Supply(key, m), Supply(key, n)} ::
      hash(Supply(key, m)) == hash(Supply(key, n)) ==> m == n
  }

  /** From some document on, the supply is new to a set of keys. */
  lemma {:induction false} SupplyLeaves(hash: Document -> Key, key: SourceKey, keys: set<Key>) returns (from: nat)
    requires TellsApart(hash, key)
    ensures forall n: nat | from <= n :: hash(Supply(key, n)) !in keys
    decreases keys
  {
    hide Supply;
    from := 0;
    if keys != {} {
      var k :| k in keys;
      from := SupplyLeaves(hash, key, keys - {k});
      if n: nat :| hash(Supply(key, n)) == k {
        from := if from <= n then n + 1 else from;
      }
    }
  }

  function SupplyFrom(key: SourceKey, from: nat, n: nat): seq<Document> {
    seq(n, i requires 0 <= i => Supply(key, from + i))
  }

  /** For every state, and whatever the mode: the stores agree after every run over every list of documents in every
      batch size if and only if no later reading of the clock is below the one that the run starts with. */
  lemma StoresAgreeIff(hash: Document -> Key, opts: Options, clock: nat -> nat, st: State)
    requires InStep(st) && !(opts.cleanup == Incremental && IsMissing(opts.sourceIdKey))
    requires TellsApart(hash, opts.sourceIdKey)
    requires var env := MakeEnv(hash, opts, clock, clock(st.ticks));
             forall n: nat :: Acceptable(env, Supply(opts.sourceIdKey, n))
    ensures (forall size: int, docs: seq<Document> :: InStep(Run(hash, opts.(batchSize := size), clock, st, docs).st))
            <==> forall i: nat | st.ticks < i :: clock(st.ticks) <= clock(i)
  {
    hide Run;
    hide Acceptable;
    hide Supply;
    if forall i: nat | st.ticks < i :: clock(st.ticks) <= clock(i) {
      forall size: int, docs: seq<Document> ensures InStep(Run(hash, opts.(batchSize := size), clock, st, docs).st) {
        RunUnderAFairClock(hash, opts.(batchSize := size), clock, st, docs);
      }
    } else {
      var i: nat :| st.ticks < i && clock(i) < clock(st.ticks);
      var from := SupplyLeaves(hash, opts.sourceIdKey, st.records.Keys);
      var docs := SupplyFrom(opts.sourceIdKey, from, i - st.ticks);
      var one := opts.(batchSize := 1);
      SupplyIsNew(hash, one, clock, st, from, i - st.ticks);
      IndexOneByOne(hash, one, clock, st, docs);
      assert !InStep(Run(hash, opts.(batchSize := 1), clock, st, docs).st);
    }
  }

  lemma SupplyIsNew(hash: Document -> Key, opts: Options, clock: nat -> nat, st: State, from: nat, n: nat)
    requires TellsApart(hash, opts.sourceIdKey)
    requires var env := MakeEnv(hash, opts, clock, clock(st.ticks));
             forall n: nat :: Acceptable(env, Supply(opts.sourceIdKey, n))
    requires forall n: nat | from <= n :: hash(Supply(opts.sourceIdKey, n)) !in st.records.Keys
    ensures NewDocuments(MakeEnv(hash, opts, clock, clock(st.ticks)), st.records, SupplyFrom(opts.sourceIdKey, from, n))
  {
    hide Supply;
    hide Acceptable;
    var docs := SupplyFrom(opts.sourceIdKey, from, n);
    assert forall i | 0 <= i < n :: docs[i] == Supply(opts.sourceIdKey, from + i);
  }

  /** The supply is acceptable, but for incremental runs whose source key is reserved, missing or a function. */
  lemma SupplyIsAcceptable(env: Env, n: nat)
    requires env.sourceIdKey.MetadataKey? ==> env.sourceIdKey.name !in RESERVED_KEYS
    requires env.cleanup == Incremental ==> env.sourceIdKey.MetadataKey?
    ensures Acceptable(env, Supply(env.sourceIdKey, n))
  {
  }
}
