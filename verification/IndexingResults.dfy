/** What a run ends with: the final keys, the counters, and what a second run does. */
module IndexingResults {
  import opened Wrappers
  import opened Indexing
  import opened IndexingProofs

  // ---- the keys a run leaves ----

  /** Stamped during this run. */
  predicate Fresh(env: Env, r: Record) { r.updatedAt >= env.start }

  /** A start time of zero turns the time bound of every cleanup off. */
  predicate Timed(env: Env) { env.cleanup == NoCleanup || env.start != 0 }

  /** What the cleanup after each batch takes, for the sources seen so far. */
  predicate Swept(env: Env, r: Record, sources: set<string>) {
    env.cleanup == Incremental && Listed(r, env.start, Some(sources))
  }

  /** After documents with the keys `done` from the given sources: those keys are there and fresh, every
      other row is one the run found and no sweep took, unchanged. */
  ghost predicate Progress(env: Env, found: map<Key, Record>, records: map<Key, Record>, done: set<Key>,
                           sources: set<string>) {
    && done <= records.Keys
    && (forall k | k in done :: Fresh(env, records[k]))
    && (forall k | k !in done :: k in records <==> k in found && !Swept(env, found[k], sources))
    && (forall k | k !in done && k in records :: records[k] == found[k])
  }

  lemma StoreProgress(env: Env, st: State, c: Counters, docs: seq<Document>)
    requires Store(env, st, c, docs).result.Ok?
    ensures var r := Store(env, st, c, docs).st.records;
            && r.Keys == st.records.Keys + HashSet(docs, env.hash)
            && (forall k | k in r :: if k in HashSet(docs, env.hash) then Fresh(env, r[k]) else r[k] == st.records[k])
  {
    var w := Write(env, st, docs);
    WriteRecords(env, st, docs);
    HashesAreHashSet(docs, env.hash);
    UpsertFacts(w.st.records, Hashes(docs, env.hash), Groups(docs, env), env.clock(w.st.ticks));
  }

  lemma WriteRecords(env: Env, st: State, docs: seq<Document>)
    requires Write(env, st, docs).result.Ok?
    ensures var r := Write(env, st, docs).st.records;
            && r.Keys == st.records.Keys
            && (forall k | k in r && k !in HashSet(docs, env.hash) :: r[k] == st.records[k])
  {
    var skipped := Skipped(docs, env, st.records);
    ClassifyFacts(docs, env, st.records);
    HashesAreHashSet(skipped, env.hash);
    UpsertFacts(st.records, Hashes(skipped, env.hash), NoGroups(|skipped|), env.clock(st.ticks));
  }

  /** The sources of the documents that survive deduplication in their batches. */
  function SeenSources(env: Env, batches: seq<seq<Document>>): set<string>
    decreases |batches|
  {
    if batches == [] then {}
    else SourceTexts(Deduplicated(batches[0], env.hash, {}), env) + SeenSources(env, batches[1..])
  }

  lemma RunAcceptedProgress(env: Env, found: map<Key, Record>, st: State, c: Counters, docs: seq<Document>,
                            done: set<Key>, sources: set<string>)
    requires Timed(env) && Progress(env, found, st.records, done, sources)
    requires RunAccepted(env, st, c, docs).result.Ok?
    ensures Progress(env, found, RunAccepted(env, st, c, docs).st.records,
                     done + HashSet(docs, env.hash), sources + SourceTexts(docs, env))
  {
    StoreProgress(env, st, c, docs);
    var r := Store(env, st, c, docs).st.records;
    var done', sources' := done + HashSet(docs, env.hash), sources + SourceTexts(docs, env);
    if env.cleanup == Incremental {
      var texts := SourceTexts(docs, env);
      var stale := Listing(r, env.start, Some(texts));
      forall k | k !in done' ensures k in r - stale <==> k in found && !Swept(env, found[k], sources') {}
      forall k | k in done' ensures k !in stale && k in r {}
    }
  }

  lemma {:induction false} RunBatchesProgress(env: Env, found: map<Key, Record>, st: State, c: Counters,
                                              batches: seq<seq<Document>>, done: set<Key>, sources: set<string>)
    requires Timed(env) && Progress(env, found, st.records, done, sources)
    requires RunBatches(env, st, c, batches).result.Ok?
    ensures Progress(env, found, RunBatches(env, st, c, batches).st.records,
                     done + HashSet(Flatten(batches), env.hash), sources + SeenSources(env, batches))
    decreases |batches|
  {
    if batches == [] {
      assert done + HashSet(Flatten(batches), env.hash) == done && sources + SeenSources(env, batches) == sources;
    } else {
      var docs, rest := Deduplicated(batches[0], env.hash, {}), batches[1..];
      var first := RunBatch(env, st, c, batches[0]);
      RunAcceptedProgress(env, found, st, c, docs, done, sources);
      DeduplicatedKeepsHashes(batches[0], env.hash, {});
      var done1, sources1 := done + HashSet(docs, env.hash), sources + SourceTexts(docs, env);
      RunBatchesProgress(env, found, first.st, first.result.value, rest, done1, sources1);
      HashSetConcat(batches[0], Flatten(rest), env.hash);
      assert done1 + HashSet(Flatten(rest), env.hash) == done + HashSet(Flatten(batches), env.hash);
      assert sources1 + SeenSources(env, rest) == sources + SeenSources(env, batches);
    }
  }

  /** The rows of before the run that a run may keep, besides those of its own documents. */
  predicate Kept(env: Env, r: Record, sources: set<string>) {
    match env.cleanup
    case NoCleanup => true
    case Full => Fresh(env, r)
    case Incremental => Fresh(env, r) || r.group.None? || r.group.value !in sources
  }

  function FinalKeys(env: Env, found: map<Key, Record>, docs: seq<Document>, sources: set<string>): set<Key> {
    HashSet(docs, env.hash) + set k | k in found && Kept(env, found[k], sources)
  }

  /** The keys left by a run that throws nothing, in every cleanup mode and for every batch size. */
  lemma RunLeavesFinalKeys(env: Env, st: State, batchSize: int, docs: seq<Document>)
    requires Timed(env) && RunFrom(env, st, batchSize, docs).result.Ok?
    ensures RunFrom(env, st, batchSize, docs).st.records.Keys
         == FinalKeys(env, st.records, docs, SeenSources(env, Batches(batchSize, docs)))
  {
    var batches := Batches(batchSize, docs);
    BatchesFlatten(batchSize, docs);
    RunBatchesProgress(env, st.records, st, NO_COUNTS, batches, {}, {});
    var H, S := HashSet(docs, env.hash), SeenSources(env, batches);
    assert {} + H == H && {} + S == S;
    ProgressEnds(env, st.records, RunBatches(env, st, NO_COUNTS, batches).st.records, docs, S);
  }

  lemma ProgressEnds(env: Env, found: map<Key, Record>, records: map<Key, Record>, docs: seq<Document>,
                     sources: set<string>)
    requires Timed(env) && Progress(env, found, records, HashSet(docs, env.hash), sources)
    ensures (if env.cleanup == Full then records - Listing(records, env.start, None) else records).Keys
         == FinalKeys(env, found, docs, sources)
  {
    var H := HashSet(docs, env.hash);
    var final := if env.cleanup == Full then records - Listing(records, env.start, None) else records;
    forall k ensures k in final <==> k in FinalKeys(env, found, docs, sources) {
      if k !in H {
        assert k in records ==> records[k] == found[k];
        assert k in found ==>
            (Swept(env, found[k], sources) <==> env.cleanup == Incremental && !Kept(env, found[k], sources));
      }
    }
  }

  // ---- a start time of zero ----

  /** A full run keeps its own documents exactly when its start time is not zero. */
  lemma FullRunKeepsItsDocuments(env: Env, st: State, batchSize: int, docs: seq<Document>)
    requires env.cleanup == Full && RunFrom(env, st, batchSize, docs).result.Ok?
    ensures HashSet(docs, env.hash) <= RunFrom(env, st, batchSize, docs).st.records.Keys
            <==> env.start != 0 || docs == []
    ensures env.start == 0 ==> RunFrom(env, st, batchSize, docs).st.records == map[]
  {
    if env.start != 0 {
      RunLeavesFinalKeys(env, st, batchSize, docs);
    } else {
      var run := RunBatches(env, st, NO_COUNTS, Batches(batchSize, docs));
      ListingAll(run.st.records);
      assert RunFrom(env, st, batchSize, docs).st.records == map[];
      if docs != [] { HashSetHead(docs, env.hash); }
    }
  }

  // ---- the counters ----

  /** The sizes of the deduplicated batches, added up. */
  function Handled(env: Env, batches: seq<seq<Document>>): nat
    decreases |batches|
  {
    if batches == [] then 0 else |Deduplicated(batches[0], env.hash, {})| + Handled(env, batches[1..])
  }

  /** The counters `c` account for every key gained or lost since the counters `c0` over `found`. */
  ghost predicate Balanced(c0: Counters, found: map<Key, Record>, c: Counters, records: map<Key, Record>,
                           handled: nat) {
    && |records| - |found| == (c.numAdded - c0.numAdded) - (c.numDeleted - c0.numDeleted)
    && (c.numAdded - c0.numAdded) + (c.numUpdated - c0.numUpdated) + (c.numSkipped - c0.numSkipped) == handled
    && |c.addedDocs| - |c0.addedDocs| == (c.numAdded - c0.numAdded) + (c.numUpdated - c0.numUpdated)
    && c0.numAdded <= c.numAdded && c0.numUpdated <= c.numUpdated && c0.numSkipped <= c.numSkipped
        && c0.numDeleted <= c.numDeleted
  }

  lemma {:induction false} ForceWritesAll(docs: seq<Document>, env: Env, records: map<Key, Record>)
    requires env.forceUpdate
    ensures Written(docs, env, records) == docs
    decreases |docs|
  {
    if docs != [] { ForceWritesAll(docs[1..], env, records); }
  }

  lemma AddOne(h: Key, H: set<Key>)
    ensures |{h} + H| == |H| + if h in H then 0 else 1
  {
    if h in H { assert {h} + H == H; }
  }

  lemma SplitSize(H: set<Key>, R: set<Key>)
    ensures |H| == |H * R| + |H - R| && |R + H| == |R| + |H - R|
  {
    assert H == H * R + (H - R);
    assert R + H == R + (H - R);
  }

  lemma SetHead(h: Key, H: set<Key>, R: set<Key>)
    requires h !in H
    ensures |({h} + H) - R| == |H - R| + if h in R then 0 else 1
  {
    assert ({h} + H) - R == if h in R then H - R else {h} + (H - R);
  }

  lemma {:induction false} OtherwiseNewOnesAreWritten(docs: seq<Document>, env: Env, records: map<Key, Record>)
    requires !env.forceUpdate && |docs| == |HashSet(docs, env.hash)|
    ensures |Written(docs, env, records)| == |HashSet(docs, env.hash) - records.Keys|
    decreases |docs|
  {
    if docs != [] {
      var d, rest := docs[0], docs[1..];
      HashSetHead(docs, env.hash);
      HashSetSize(rest, env.hash);
      AddOne(env.hash(d), HashSet(rest, env.hash));
      SetHead(env.hash(d), HashSet(rest, env.hash), records.Keys);
      OtherwiseNewOnesAreWritten(rest, env, records);
    }
  }

  /** Among distinct documents, those written and not forced are the new keys. */
  lemma WrittenAreNew(docs: seq<Document>, env: Env, records: map<Key, Record>)
    requires |docs| == |HashSet(docs, env.hash)|
    ensures |Written(docs, env, records)| - |Forced(docs, env, records)| == |HashSet(docs, env.hash) - records.Keys|
  {
    var H, R := HashSet(docs, env.hash), records.Keys;
    if env.forceUpdate {
      ForceWritesAll(docs, env, records);
      SplitSize(H, R);
    } else {
      OtherwiseNewOnesAreWritten(docs, env, records);
    }
  }

  lemma {:induction false} HashSetSize(docs: seq<Document>, hash: Document -> Key)
    ensures |HashSet(docs, hash)| <= |docs|
  {
    if docs != [] {
      HashSetHead(docs, hash);
      HashSetSize(docs[1..], hash);
    }
  }

  lemma StoreBalances(env: Env, st: State, c: Counters, docs: seq<Document>)
    requires Store(env, st, c, docs).result.Ok? && |docs| == |HashSet(docs, env.hash)|
    ensures var o := Store(env, st, c, docs);
            Balanced(c, st.records, o.result.value, o.st.records, |docs|)
  {
    StoreProgress(env, st, c, docs);
    WrittenAreNew(docs, env, st.records);
    ClassifyFacts(docs, env, st.records);
    SplitSize(HashSet(docs, env.hash), st.records.Keys);
    SizeOfKeys(st.records);
    SizeOfKeys(Store(env, st, c, docs).st.records);
  }

  lemma SizeOfKeys<T>(m: map<Key, T>)
    ensures |m| == |m.Keys|
  {
  }

  lemma CleanupBalances(st: State, c: Counters, before: nat, groups: Option<set<string>>)
    ensures var o := Cleanup(st, c, before, groups);
            Balanced(c, st.records, o.result.value, o.st.records, 0)
  {
    var stale := Listing(st.records, before, groups);
    var left := (st.records - stale).Keys;
    assert st.records.Keys == left + stale;
    assert |(st.records - stale)| == |left| && |st.records| == |st.records.Keys|;
  }

  lemma BalanceAdds(c0: Counters, r0: map<Key, Record>, c1: Counters, r1: map<Key, Record>, n: nat, c2: Counters,
                    r2: map<Key, Record>, m: nat)
    requires Balanced(c0, r0, c1, r1, n) && Balanced(c1, r1, c2, r2, m)
    ensures Balanced(c0, r0, c2, r2, n + m)
  {
  }

  lemma RunAcceptedBalances(env: Env, st: State, c: Counters, docs: seq<Document>)
    requires RunAccepted(env, st, c, docs).result.Ok? && |docs| == |HashSet(docs, env.hash)|
    ensures var o := RunAccepted(env, st, c, docs);
            Balanced(c, st.records, o.result.value, o.st.records, |docs|)
  {
    var stored := Store(env, st, c, docs);
    StoreBalances(env, st, c, docs);
    if env.cleanup == Incremental {
      var o := RunAccepted(env, st, c, docs);
      CleanupBalances(stored.st, stored.result.value, env.start, Some(SourceTexts(docs, env)));
      BalanceAdds(c, st.records, stored.result.value, stored.st.records, |docs|, o.result.value, o.st.records, 0);
    }
  }

  lemma RunBatchBalances(env: Env, st: State, c: Counters, batch: seq<Document>)
    requires RunBatch(env, st, c, batch).result.Ok?
    ensures var o := RunBatch(env, st, c, batch);
            Balanced(c, st.records, o.result.value, o.st.records, |Deduplicated(batch, env.hash, {})|)
  {
    DeduplicatedKeepsHashes(batch, env.hash, {});
    DeduplicatedIsDistinct(batch, env.hash, {});
    RunAcceptedBalances(env, st, c, Deduplicated(batch, env.hash, {}));
  }

  lemma {:induction false} RunBatchesBalance(env: Env, st: State, c: Counters, batches: seq<seq<Document>>)
    requires RunBatches(env, st, c, batches).result.Ok?
    ensures var o := RunBatches(env, st, c, batches);
            Balanced(c, st.records, o.result.value, o.st.records, Handled(env, batches))
    decreases |batches|
  {
    if batches != [] {
      var first := RunBatch(env, st, c, batches[0]);
      RunBatchBalances(env, st, c, batches[0]);
      RunBatchesBalance(env, first.st, first.result.value, batches[1..]);
      var o := RunBatches(env, st, c, batches);
      BalanceAdds(c, st.records, first.result.value, first.st.records, |Deduplicated(batches[0], env.hash, {})|,
                  o.result.value, o.st.records, Handled(env, batches[1..]));
    }
  }

  lemma RunFromBalances(env: Env, st: State, batchSize: int, docs: seq<Document>)
    requires RunFrom(env, st, batchSize, docs).result.Ok?
    ensures var o := RunFrom(env, st, batchSize, docs);
            Balanced(NO_COUNTS, st.records, o.result.value, o.st.records, Handled(env, Batches(batchSize, docs)))
  {
    var batches := Batches(batchSize, docs);
    RunBatchesBalance(env, st, NO_COUNTS, batches);
    if env.cleanup == Full {
      var run := RunBatches(env, st, NO_COUNTS, batches);
      var o := RunFrom(env, st, batchSize, docs);
      CleanupBalances(run.st, run.result.value, env.start, None);
      BalanceAdds(NO_COUNTS, st.records, run.result.value, run.st.records, Handled(env, batches), o.result.value,
          o.st.records, 0);
    }
  }

  /** The books balance: the reported total is the keys found plus those added less those deleted; every
      handled document is added, updated or skipped; every added document is reported. */
  lemma CountersBalance(hash: Document -> Key, opts: Options, clock: nat -> nat, st: State, docs: seq<Document>)
    requires Run(hash, opts, clock, st, docs).result.Ok?
    ensures var o := Run(hash, opts, clock, st, docs);
            var c := o.result.value.counters;
            var env := MakeEnv(hash, opts, clock, clock(st.ticks));
            && o.result.value.totalKeys == |o.st.records| == |st.records| + c.numAdded - c.numDeleted
            && c.numAdded + c.numUpdated + c.numSkipped == Handled(env, Batches(opts.batchSize, docs))
            && c.numAdded + c.numUpdated == |c.addedDocs|
            && c.numAdded >= 0 && c.numUpdated >= 0 && c.numSkipped >= 0 && c.numDeleted >= 0
  {
    hide RunFrom;
    RunFromBalances(MakeEnv(hash, opts, clock, clock(st.ticks)), st.(ticks := st.ticks + 1), opts.batchSize, docs);
  }

  // ---- a second run ----

  lemma {:induction false} AllKnown(docs: seq<Document>, env: Env, records: map<Key, Record>)
    requires !env.forceUpdate && HashSet(docs, env.hash) <= records.Keys
    ensures Written(docs, env, records) == []
    decreases |docs|
  {
    if docs != [] {
      HashSetHead(docs, env.hash);
      AllKnown(docs[1..], env, records);
    }
  }

  lemma {:induction false} KnownBatchesChangeNothing(env: Env, st: State, c: Counters, batches: seq<seq<Document>>)
    requires !env.forceUpdate && env.cleanup != Incremental
    requires HashSet(Flatten(batches), env.hash) <= st.records.Keys
    requires RunBatches(env, st, c, batches).result.Ok?
    ensures var o := RunBatches(env, st, c, batches);
            && o.st.records.Keys == st.records.Keys && o.st.vectors == st.vectors
            && o.result.value.addedDocs == c.addedDocs && o.result.value.numDeleted == c.numDeleted
            && o.result.value.numAdded == c.numAdded && o.result.value.numUpdated == c.numUpdated
    decreases |batches|
  {
    if batches != [] {
      var docs := Deduplicated(batches[0], env.hash, {});
      var first := RunBatch(env, st, c, batches[0]);
      HashSetConcat(batches[0], Flatten(batches[1..]), env.hash);
      DeduplicatedKeepsHashes(batches[0], env.hash, {});
      AllKnown(docs, env, st.records);
      StoreProgress(env, st, c, docs);
      assert first == Store(env, st, c, docs);
      assert first.st.records.Keys == st.records.Keys && first.st.vectors == st.vectors;
      assert c.addedDocs + [] == c.addedDocs;
      KnownBatchesChangeNothing(env, first.st, first.result.value, batches[1..]);
    }
  }

  /** A full run whose documents are all that the stores hold adds nothing, deletes nothing and leaves
      both stores' contents alone. */
  lemma FullRunOverKnownDocuments(env: Env, st: State, batchSize: int, docs: seq<Document>)
    requires env.cleanup == Full && !env.forceUpdate && env.start != 0
    requires InStep(st) && st.records.Keys == HashSet(docs, env.hash)
    requires RunFrom(env, st, batchSize, docs).result.Ok?
    ensures var o := RunFrom(env, st, batchSize, docs);
            && o.st.records.Keys == st.records.Keys && o.st.vectors == st.vectors
            && o.result.value.numAdded == o.result.value.numUpdated == o.result.value.numDeleted == 0
            && o.result.value.addedDocs == []
  {
    var batches := Batches(batchSize, docs);
    BatchesFlatten(batchSize, docs);
    var run := RunBatches(env, st, NO_COUNTS, batches);
    KnownBatchesChangeNothing(env, st, NO_COUNTS, batches);
    RunLeavesFinalKeys(env, st, batchSize, docs);
    var stale := Listing(run.st.records, env.start, None);
    assert run.st.records.Keys - stale == run.st.records.Keys;
    assert stale == {};
    assert run.st.vectors - stale == run.st.vectors;
  }

  /** Full cleanup is idempotent: a second run over the same documents, whatever its batch size and whenever
      it starts, changes nothing, when everything the first run found was older than its start. */
  lemma SecondFullRunChangesNothing(env1: Env, env2: Env, st: State, size1: int, size2: int, docs: seq<Document>,
                                    ticks: nat)
    requires env1.cleanup == Full && env1.start != 0 && InStep(st)
    requires forall k | k in st.records :: st.records[k].updatedAt < env1.start
    requires RunFrom(env1, st, size1, docs).result.Ok?
    requires env2.cleanup == Full && env2.start != 0 && !env2.forceUpdate && env2.hash == env1.hash
    requires RunFrom(env2, RunFrom(env1, st, size1, docs).st.(ticks := ticks), size2, docs).result.Ok?
    ensures var st1 := RunFrom(env1, st, size1, docs).st;
            var o := RunFrom(env2, st1.(ticks := ticks), size2, docs);
            && o.st.records.Keys == st1.records.Keys && o.st.vectors == st1.vectors
            && o.result.value.numAdded == o.result.value.numUpdated == o.result.value.numDeleted == 0
            && o.result.value.addedDocs == []
  {
    var st1 := RunFrom(env1, st, size1, docs).st;
    RunLeavesFinalKeys(env1, st, size1, docs);
    RunFromKeeps(env1, st, size1, docs);
    assert st1.records.Keys == HashSet(docs, env1.hash);
    FullRunOverKnownDocuments(env2, st1.(ticks := ticks), size2, docs);
  }
}
