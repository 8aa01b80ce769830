/** What every run of the indexer keeps, and what it ends with. */
module IndexingProofs {
  import opened Wrappers
  import opened Indexing

  // ---- the stores, one call at a time ----

  lemma {:induction false} UpsertFacts(records: map<Key, Record>, keys: seq<Key>, groups: seq<Option<string>>, now: nat)
    requires |groups| == |keys|
    ensures var r := Upsert(records, keys, groups, now);
            && r.Keys == records.Keys + KeySet(keys)
            && (forall k | k in r :: if k in KeySet(keys) then r[k].updatedAt == now else r[k] == records[k])
            && (forall k | k in records :: r[k].group == records[k].group)
    decreases |keys|
  {
    if keys != [] {
      var k := keys[0];
      var group := if k in records then records[k].group else groups[0];
      UpsertFacts(records[k := Record(now, group)], keys[1..], groups[1..], now);
      assert keys == [k] + keys[1..];
      assert KeySet(keys) == {k} + KeySet(keys[1..]);
    }
  }

  /** A row that was not there gets the group that is given with its key. */
  lemma {:induction false} UpsertGivesGroups(records: map<Key, Record>, keys: seq<Key>, groups: seq<Option<string>>,
                                             now: nat, i: nat)
    requires |groups| == |keys| && i < |keys| && keys[i] !in records && forall j | 0 <= j < i :: keys[j] != keys[i]
    ensures var r := Upsert(records, keys, groups, now); keys[i] in r && r[keys[i]] == Record(now, groups[i])
    decreases |keys|
  {
    var k := keys[0];
    var group := if k in records then records[k].group else groups[0];
    var more := records[k := Record(now, group)];
    if i == 0 {
      UpsertFacts(more, keys[1..], groups[1..], now);
    } else {
      assert forall j | 0 <= j < i - 1 :: keys[1..][j] == keys[j + 1];
      UpsertGivesGroups(more, keys[1..], groups[1..], now, i - 1);
    }
  }

  /** Every stored document is the one its id was computed from. */
  ghost predicate OwnDocuments(vectors: map<Key, Document>, hash: Document -> Key) {
    forall k | k in vectors :: hash(vectors[k]) == k
  }

  lemma {:induction false} AddFacts(vectors: map<Key, Document>, docs: seq<Document>, hash: Document -> Key)
    ensures var r := AddDocuments(vectors, docs, Hashes(docs, hash));
            && r.Keys == vectors.Keys + HashSet(docs, hash)
            && (OwnDocuments(vectors, hash) ==> OwnDocuments(r, hash))
    decreases |docs|
  {
    if docs != [] {
      var d := docs[0];
      var ids := Hashes(docs, hash);
      assert ids[0] == hash(d) && ids[1..] == Hashes(docs[1..], hash);
      AddFacts(vectors[hash(d) := d], docs[1..], hash);
      assert docs == [d] + docs[1..];
      HashSetConcat([d], docs[1..], hash);
      assert HashSet([d], hash) == {hash(d)};
    }
  }

  lemma {:induction false} ClassifyFacts(docs: seq<Document>, env: Env, records: map<Key, Record>)
    ensures HashSet(Skipped(docs, env, records), env.hash) <= records.Keys
    ensures HashSet(Skipped(docs, env, records), env.hash) <= HashSet(docs, env.hash)
    ensures records.Keys + HashSet(Written(docs, env, records), env.hash) == records.Keys + HashSet(docs, env.hash)
    ensures |Skipped(docs, env, records)| + |Written(docs, env, records)| == |docs|
    decreases |docs|
  {
    if docs != [] {
      var d, rest := docs[0], docs[1..];
      ClassifyFacts(rest, env, records);
      assert docs == [d] + rest;
      HashSetConcat([d], rest, env.hash);
      HashSetConcat([d], Skipped(rest, env, records), env.hash);
      HashSetConcat([d], Written(rest, env, records), env.hash);
      assert HashSet([d], env.hash) == {env.hash(d)};
      if env.hash(d) in records && !env.forceUpdate {
        assert Skipped(docs, env, records) == [d] + Skipped(rest, env, records);
        assert Written(docs, env, records) == Written(rest, env, records);
      } else {
        assert Skipped(docs, env, records) == Skipped(rest, env, records);
        assert Written(docs, env, records) == [d] + Written(rest, env, records);
      }
    }
  }

  // ---- the stores stay in step ----

  ghost predicate InStep(st: State) { st.records.Keys == st.vectors.Keys }

  /** The vector store holds every recorded key, and beyond those only keys in `ahead`. */
  ghost predicate Ahead(st: State, ahead: set<Key>) {
    st.records.Keys <= st.vectors.Keys <= st.records.Keys + ahead
  }

  lemma UpdateFacts(env: Env, st: State, docs: seq<Document>, groups: seq<Option<string>>)
    requires |groups| == |docs|
    ensures var o := Update(env, st, Hashes(docs, env.hash), groups);
            && o.st.vectors == st.vectors
            && (o.result.Err? ==> o.result == Err(TimeSync) && o.st.records == st.records)
            && (o.result.Ok? ==> o.st.records.Keys == st.records.Keys + HashSet(docs, env.hash))
  {
    HashesAreHashSet(docs, env.hash);
    UpsertFacts(st.records, Hashes(docs, env.hash), groups, env.clock(st.ticks));
    if docs == [] { assert Hashes(docs, env.hash) == []; }
  }

  lemma WriteFacts(env: Env, st: State, docs: seq<Document>)
    ensures var o := Write(env, st, docs);
            && o.st.records.Keys == st.records.Keys
            && (o.result.Err? ==> o.result == Err(TimeSync) && o.st.vectors == st.vectors)
            && (InStep(st) && o.result.Ok? ==> o.st.vectors.Keys == st.vectors.Keys + HashSet(docs, env.hash))
            && (OwnDocuments(st.vectors, env.hash) ==> OwnDocuments(o.st.vectors, env.hash))
  {
    var skipped, written := Skipped(docs, env, st.records), Written(docs, env, st.records);
    ClassifyFacts(docs, env, st.records);
    UpdateFacts(env, st, skipped, NoGroups(|skipped|));
    AddFacts(st.vectors, written, env.hash);
  }

  lemma StoreInStep(env: Env, st: State, c: Counters, docs: seq<Document>)
    requires InStep(st)
    ensures var o := Store(env, st, c, docs);
            && Ahead(o.st, HashSet(docs, env.hash))
            && (o.result.Ok? ==> InStep(o.st))
            && (o.result.Err? ==> o.result == Err(TimeSync))
            && (OwnDocuments(st.vectors, env.hash) ==> OwnDocuments(o.st.vectors, env.hash))
  {
    WriteFacts(env, st, docs);
    UpdateFacts(env, Write(env, st, docs).st, docs, Groups(docs, env));
  }

  /** What every piece of a run keeps: the vector store is at most `ahead`, and in step unless the clock
      went back; documents stay under their own ids. */
  ghost predicate Keeps(hash: Document -> Key, st: State, after: State, timeSync: bool, ahead: set<Key>) {
    && Ahead(after, ahead)
    && (!timeSync ==> InStep(after))
    && (OwnDocuments(st.vectors, hash) ==> OwnDocuments(after.vectors, hash))
  }

  lemma DeleteKeeps(hash: Document -> Key, st: State, keys: set<Key>, ahead: set<Key>)
    requires InStep(st)
    ensures Keeps(hash, st, Delete(st, keys), false, ahead)
  {
  }

  lemma RunAcceptedKeeps(env: Env, st: State, c: Counters, docs: seq<Document>)
    requires InStep(st)
    ensures var o := RunAccepted(env, st, c, docs);
            Keeps(env.hash, st, o.st, o.result == Err(TimeSync), HashSet(docs, env.hash))
  {
    StoreInStep(env, st, c, docs);
    var stored := Store(env, st, c, docs);
    if stored.result.Ok? {
      var stale := Listing(stored.st.records, env.start, Some(SourceTexts(docs, env)));
      DeleteKeeps(env.hash, stored.st, stale, HashSet(docs, env.hash));
    }
  }

  lemma RunBatchKeeps(env: Env, st: State, c: Counters, batch: seq<Document>)
    requires InStep(st)
    ensures var o := RunBatch(env, st, c, batch);
            Keeps(env.hash, st, o.st, o.result == Err(TimeSync), HashSet(batch, env.hash))
  {
    DeduplicatedKeepsHashes(batch, env.hash, {});
    RunAcceptedKeeps(env, st, c, Deduplicated(batch, env.hash, {}));
  }

  lemma {:induction false} RunBatchesKeep(env: Env, st: State, c: Counters, batches: seq<seq<Document>>)
    requires InStep(st)
    ensures var o := RunBatches(env, st, c, batches);
            Keeps(env.hash, st, o.st, o.result == Err(TimeSync), HashSet(Flatten(batches), env.hash))
    decreases |batches|
  {
    if batches != [] {
      var first := RunBatch(env, st, c, batches[0]);
      RunBatchKeeps(env, st, c, batches[0]);
      HashSetConcat(batches[0], Flatten(batches[1..]), env.hash);
      if first.result.Ok? { RunBatchesKeep(env, first.st, first.result.value, batches[1..]); }
    }
  }

  lemma RunFromKeeps(env: Env, st: State, batchSize: int, docs: seq<Document>)
    requires InStep(st)
    ensures var o := RunFrom(env, st, batchSize, docs);
            Keeps(env.hash, st, o.st, o.result == Err(TimeSync), HashSet(docs, env.hash))
  {
    var batches := Batches(batchSize, docs);
    var run := RunBatches(env, st, NO_COUNTS, batches);
    BatchesFlatten(batchSize, docs);
    RunBatchesKeep(env, st, NO_COUNTS, batches);
    if run.result.Ok? {
      DeleteKeeps(env.hash, run.st, Listing(run.st.records, env.start, None), HashSet(docs, env.hash));
    }
  }

  // ---- exactly when the stores part ----

  /** Storing these documents parts the stores: the touch is not refused, the reading that stamps is below the start,
      and a document has been written that no record knows. */
  predicate Parts(env: Env, st: State, docs: seq<Document>) {
    var touches := if Skipped(docs, env, st.records) == [] then 0 else 1;
    && env.start != 0
    && (touches == 1 ==> env.start <= env.clock(st.ticks))
    && env.clock(st.ticks + touches) < env.start
    && !(HashSet(docs, env.hash) <= st.records.Keys)
  }

  lemma StorePartsIff(env: Env, st: State, c: Counters, docs: seq<Document>)
    requires InStep(st)
    ensures InStep(Store(env, st, c, docs).st) <==> !Parts(env, st, docs)
  {
    WriteFacts(env, st, docs);
    UpdateFacts(env, Write(env, st, docs).st, docs, Groups(docs, env));
    StoreInStep(env, st, c, docs);
    if docs == [] { assert HashSet(docs, env.hash) == {}; }
  }

  /** The round is not refused, and parts the stores. */
  predicate RoundParts(env: Env, st: State, batch: seq<Document>) {
    Refusal(env, batch).None? && Parts(env, st, Deduplicated(batch, env.hash, {}))
  }

  lemma RunBatchPartsIff(env: Env, st: State, c: Counters, batch: seq<Document>)
    requires InStep(st)
    ensures InStep(RunBatch(env, st, c, batch).st) <==> !RoundParts(env, st, batch)
  {
    hide Refusal;
    hide Parts;
    hide Store;
    hide Deduplicated;
    var docs := Deduplicated(batch, env.hash, {});
    StorePartsIff(env, st, c, docs);
    StoreInStep(env, st, c, docs);
  }

  /** The run reaches a round that parts the stores. */
  ghost predicate ReachesParting(env: Env, st: State, c: Counters, batches: seq<seq<Document>>) {
    exists i | 0 <= i < |batches| :: PartsInRound(env, st, c, batches, i)
  }

  predicate PartsInRound(env: Env, st: State, c: Counters, batches: seq<seq<Document>>, i: nat)
    requires i < |batches|
  {
    var before := RunBatches(env, st, c, batches[..i]);
    before.result.Ok? && RoundParts(env, before.st, batches[i])
  }

  lemma LaterRound(env: Env, st: State, c: Counters, batches: seq<seq<Document>>, i: nat)
    requires 0 < i < |batches|
    ensures var first := RunBatch(env, st, c, batches[0]);
            PartsInRound(env, st, c, batches, i) <==>
              first.result.Ok? && PartsInRound(env, first.st, first.result.value, batches[1..], i - 1)
  {
    hide RunBatch;
    hide RoundParts;
    assert batches[..i][1..] == batches[1..][..i - 1] && batches[..i][0] == batches[0];
  }

  lemma FirstRound(env: Env, st: State, c: Counters, batches: seq<seq<Document>>)
    requires batches != []
    ensures PartsInRound(env, st, c, batches, 0) <==> RoundParts(env, st, batches[0])
  {
    hide RunBatch;
    hide RoundParts;
    assert batches[..0] == [];
  }

  lemma {:induction false} RunBatchesPartIff(env: Env, st: State, c: Counters, batches: seq<seq<Document>>)
    requires InStep(st)
    ensures InStep(RunBatches(env, st, c, batches).st) <==> !ReachesParting(env, st, c, batches)
    decreases |batches|
  {
    hide RunBatch;
    hide RoundParts;
    hide PartsInRound;
    if batches != [] {
      var first := RunBatch(env, st, c, batches[0]);
      var rest := batches[1..];
      RunBatchPartsIff(env, st, c, batches[0]);
      RunBatchKeeps(env, st, c, batches[0]);
      FirstRound(env, st, c, batches);
      forall i | 0 < i < |batches|
        ensures PartsInRound(env, st, c, batches, i) <==>
                first.result.Ok? && PartsInRound(env, first.st, first.result.value, rest, i - 1)
      {
        LaterRound(env, st, c, batches, i);
      }
      if first.result.Ok? {
        RunBatchesPartIff(env, first.st, first.result.value, rest);
        assert forall i | 0 <= i < |rest| ::
            PartsInRound(env, first.st, first.result.value, rest, i) <==> PartsInRound(env, st, c, batches, i + 1);
      }
    }
  }

  lemma RunFromPartsIff(env: Env, st: State, batchSize: int, docs: seq<Document>)
    requires InStep(st)
    ensures InStep(RunFrom(env, st, batchSize, docs).st)
            <==> !ReachesParting(env, st, NO_COUNTS, Batches(batchSize, docs))
  {
    hide ReachesParting;
    var batches := Batches(batchSize, docs);
    var run := RunBatches(env, st, NO_COUNTS, batches);
    RunBatchesPartIff(env, st, NO_COUNTS, batches);
    RunBatchesKeep(env, st, NO_COUNTS, batches);
    if run.result.Ok? {
      DeleteKeeps(env.hash, run.st, Listing(run.st.records, env.start, None), HashSet(docs, env.hash));
    }
  }

  lemma StateAfterRun(hash: Document -> Key, opts: Options, clock: nat -> nat, st: State, docs: seq<Document>)
    ensures var env := MakeEnv(hash, opts, clock, clock(st.ticks));
            Run(hash, opts, clock, st, docs).st
            == if opts.cleanup == Incremental && IsMissing(opts.sourceIdKey) then st
               else RunFrom(env, st.(ticks := st.ticks + 1), opts.batchSize, docs).st
  {
    hide RunFrom;
  }

  /** Whatever mode a run is in and however it ends, the vector store holds every recorded key, each with
      its own document, and beyond those only documents of this run. The two key sets agree again exactly when
      the run reaches no round in which the clock is below the start time between two updates. */
  lemma RunKeepsStoresInStep(hash: Document -> Key, opts: Options, clock: nat -> nat, st: State, docs: seq<Document>)
    requires InStep(st)
    ensures var o := Run(hash, opts, clock, st, docs);
            var env := MakeEnv(hash, opts, clock, clock(st.ticks));
            && (InStep(o.st) <==>
                  || (opts.cleanup == Incremental && IsMissing(opts.sourceIdKey))
                  || !ReachesParting(env, st.(ticks := st.ticks + 1), NO_COUNTS, Batches(opts.batchSize, docs)))
            && Ahead(o.st, HashSet(docs, hash))
            && (OwnDocuments(st.vectors, hash) ==> OwnDocuments(o.st.vectors, hash))
  {
    hide Run;
    hide RunFrom;
    hide ReachesParting;
    StateAfterRun(hash, opts, clock, st, docs);
    var env, read := MakeEnv(hash, opts, clock, clock(st.ticks)), st.(ticks := st.ticks + 1);
    RunFromPartsIff(env, read, opts.batchSize, docs);
    RunFromKeeps(env, read, opts.batchSize, docs);
  }
}
