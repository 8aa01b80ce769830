/** When an incremental rerun over unchanged documents is idle. */
module IndexingReruns {
  import opened Wrappers
  import opened Indexing
  import opened IndexingProofs
  import opened IndexingResults
  import opened IndexingContents
  import opened IndexingBatchSizes

  // ---- an incremental run over what is already there ----

  /** The source text of a document, when it has one. */
  function TextOf(v: Value): string { if v.Text? then v.text else "" }

  /** A document of `later` that is not yet done and shares a source with the batch. */
  ghost predicate Waiting(env: Env, batch: seq<Document>, later: seq<Document>, done: set<Key>) {
    exists d | d in later ::
      env.hash(d) !in done && Group(Source(env, d)).Some? && TextOf(Source(env, d)) in SourceTexts(batch, env)
  }

  /** Some source has documents in a batch and new ones in a later batch. */
  ghost predicate SourceSpansBatches(env: Env, batches: seq<seq<Document>>, done: set<Key>)
    decreases |batches|
  {
    batches != [] &&
    var docs := Deduplicated(batches[0], env.hash, {});
    var done' := done + HashSet(docs, env.hash);
    Waiting(env, docs, Flatten(batches[1..]), done') || SourceSpansBatches(env, batches[1..], done')
  }

  /** The rows are those of the documents: the done ones fresh, the others old and under their own source. */
  ghost predicate Rows(env: Env, records: map<Key, Record>, done: set<Key>, docs: seq<Document>) {
    && records.Keys == done + HashSet(docs, env.hash)
    && (forall k | k in done :: Fresh(env, records[k]))
    && (forall d | d in docs && env.hash(d) !in done ::
          !Fresh(env, records[env.hash(d)]) && records[env.hash(d)].group == Group(Source(env, d)))
  }

  lemma RowsAfterStore(env: Env, st: State, c: Counters, batch: seq<Document>, rest: seq<Document>, done: set<Key>)
    requires Rows(env, st.records, done, batch + rest)
    requires Store(env, st, c, Deduplicated(batch, env.hash, {})).result.Ok?
    ensures var docs := Deduplicated(batch, env.hash, {});
            Rows(env, Store(env, st, c, docs).st.records, done + HashSet(docs, env.hash), rest)
  {
    var docs := Deduplicated(batch, env.hash, {});
    var r := Store(env, st, c, docs).st.records;
    var done' := done + HashSet(docs, env.hash);
    StoreProgress(env, st, c, docs);
    DeduplicatedKeepsHashes(batch, env.hash, {});
    HashSetConcat(batch, rest, env.hash);
    assert r.Keys == done' + HashSet(rest, env.hash);
    forall d | d in rest && env.hash(d) !in done'
      ensures !Fresh(env, r[env.hash(d)]) && r[env.hash(d)].group == Group(Source(env, d))
    {
      assert d in batch + rest;
      assert env.hash(d) in HashSet(rest, env.hash);
    }
  }

  lemma StaleMeansWaiting(env: Env, records: map<Key, Record>, batch: seq<Document>, rest: seq<Document>,
                          done: set<Key>)
    requires env.start != 0 && Rows(env, records, done, rest)
    ensures Listing(records, env.start, Some(SourceTexts(batch, env))) == {} <==> !Waiting(env, batch, rest, done)
  {
    var stale := Listing(records, env.start, Some(SourceTexts(batch, env)));
    if stale != {} {
      var k :| k in stale;
      assert k !in done;
      assert k in HashSet(rest, env.hash);
      var d :| d in rest && env.hash(d) == k;
      assert records[k].group == Group(Source(env, d));
    }
    if Waiting(env, batch, rest, done) {
      var d :| d in rest && env.hash(d) !in done && Group(Source(env, d)).Some?
          && TextOf(Source(env, d)) in SourceTexts(batch, env);
      assert env.hash(d) in HashSet(rest, env.hash);
      assert env.hash(d) in stale;
    }
  }

  lemma StoreDeletesNothing(env: Env, st: State, c: Counters, docs: seq<Document>)
    requires Store(env, st, c, docs).result.Ok?
    ensures Store(env, st, c, docs).result.value.numDeleted == c.numDeleted
  {
    hide Write;
  }

  /** One batch: it deletes something exactly when a document waits; otherwise the rows stay as they should. */
  lemma DeletesInBatch(env: Env, st: State, c: Counters, batch: seq<Document>, rest: seq<Document>, done: set<Key>)
    requires env.cleanup == Incremental && env.start != 0 && Rows(env, st.records, done, batch + rest)
    requires RunBatch(env, st, c, batch).result.Ok?
    ensures var docs := Deduplicated(batch, env.hash, {});
            var o := RunBatch(env, st, c, batch);
            var done' := done + HashSet(docs, env.hash);
            && c.numDeleted <= o.result.value.numDeleted
            && (c.numDeleted < o.result.value.numDeleted <==> Waiting(env, docs, rest, done'))
            && (c.numDeleted == o.result.value.numDeleted ==> Rows(env, o.st.records, done', rest))
  {
    hide Store;
    hide Deduplicated;
    var docs := Deduplicated(batch, env.hash, {});
    var stored := Store(env, st, c, docs);
    StoreDeletesNothing(env, st, c, docs);
    RowsAfterStore(env, st, c, batch, rest, done);
    StaleMeansWaiting(env, stored.st.records, docs, rest, done + HashSet(docs, env.hash));
    var stale := Listing(stored.st.records, env.start, Some(SourceTexts(docs, env)));
    assert RunBatch(env, st, c, batch).result.value.numDeleted == c.numDeleted + |stale|;
    if stale == {} {
      assert stored.st.records - stale == stored.st.records;
    }
  }

  lemma {:induction false} DeletesIffSpanning(env: Env, st: State, c: Counters, batches: seq<seq<Document>>,
                                              done: set<Key>)
    requires env.cleanup == Incremental && env.start != 0 && Rows(env, st.records, done, Flatten(batches))
    requires RunBatches(env, st, c, batches).result.Ok?
    ensures c.numDeleted < RunBatches(env, st, c, batches).result.value.numDeleted
            <==> SourceSpansBatches(env, batches, done)
    decreases |batches|
  {
    if batches != [] {
      var rest := Flatten(batches[1..]);
      var first := RunBatch(env, st, c, batches[0]);
      DeletesInBatch(env, st, c, batches[0], rest, done);
      RunBatchesBalance(env, first.st, first.result.value, batches[1..]);
      if c.numDeleted == first.result.value.numDeleted {
        var done' := done + HashSet(Deduplicated(batches[0], env.hash, {}), env.hash);
        DeletesIffSpanning(env, first.st, first.result.value, batches[1..], done');
      }
    }
  }

  /** An incremental rerun over unchanged documents deletes as many as it adds, and is idle exactly when no
      source has new documents in two batches: otherwise the later ones are deleted and added again. */
  lemma IncrementalRerun(env: Env, st: State, batchSize: int, docs: seq<Document>)
    requires env.cleanup == Incremental && env.start != 0 && Rows(env, st.records, {}, docs)
    requires RunFrom(env, st, batchSize, docs).result.Ok?
    ensures var o := RunFrom(env, st, batchSize, docs);
            && o.st.records.Keys == st.records.Keys
            && o.result.value.numAdded == o.result.value.numDeleted
            && (o.result.value.numDeleted == 0 <==> !SourceSpansBatches(env, Batches(batchSize, docs), {}))
  {
    var batches := Batches(batchSize, docs);
    BatchesFlatten(batchSize, docs);
    DeletesIffSpanning(env, st, NO_COUNTS, batches, {});
    RunBatchesBalance(env, st, NO_COUNTS, batches);
    RunLeavesFinalKeys(env, st, batchSize, docs);
    var o := RunFrom(env, st, batchSize, docs);
    assert {} + HashSet(docs, env.hash) == HashSet(docs, env.hash);
    assert o.st.records.Keys == st.records.Keys;
    SizeOfKeys(o.st.records);
    SizeOfKeys(st.records);
  }

  // ---- two runs ----

  const NO_STORES := State(map[], map[], 0)

  /** Documents with one hash have one source. */
  ghost predicate GroupsAgree(env: Env, docs: seq<Document>) {
    forall d, e | d in docs && e in docs && env.hash(d) == env.hash(e) :: Group(Source(env, d)) == Group(Source(env, e))
  }

  /** A run over empty stores leaves the rows of its documents, each under its own source. */
  lemma FirstRunRows(env: Env, ticks: nat, batchSize: int, docs: seq<Document>)
    requires Timed(env) && RunFrom(env, NO_STORES.(ticks := ticks), batchSize, docs).result.Ok?
    ensures var r := RunFrom(env, NO_STORES.(ticks := ticks), batchSize, docs).st.records;
            && r.Keys == HashSet(docs, env.hash)
            && forall k | k in r :: GroupGiven(env, docs, k, r[k].group)
  {
    hide RunFrom;
    hide GroupGiven;
    hide SeenSources;
    var st := NO_STORES.(ticks := ticks);
    RunContents(env, st, batchSize, docs);
    RunLeavesFinalKeys(env, st, batchSize, docs);
  }

  lemma OwnGroups(env: Env, records: map<Key, Record>, docs: seq<Document>)
    requires GroupsAgree(env, docs) && records.Keys == HashSet(docs, env.hash)
    requires forall k | k in records :: GroupGiven(env, docs, k, records[k].group)
    ensures forall d | d in docs :: env.hash(d) in records && records[env.hash(d)].group == Group(Source(env, d))
  {
    forall d | d in docs ensures env.hash(d) in records && records[env.hash(d)].group == Group(Source(env, d)) {
      assert env.hash(d) in HashSet(docs, env.hash);
      var e :| e in docs && env.hash(e) == env.hash(d) && records[env.hash(d)].group == Group(Source(env, e));
    }
  }

  /** An incremental run over the documents of a first run, begun later than all of its stamps: it deletes as many as
      it adds, and is idle exactly when no source spans batches. */
  lemma RerunAfterFirstRun(first: Env, again: Env, ticks: nat, size1: int, size2: int, docs: seq<Document>)
    requires Timed(first) && again.cleanup == Incremental && again.start != 0
    requires again.hash == first.hash && again.sourceIdKey == first.sourceIdKey && GroupsAgree(first, docs)
    requires RunFrom(first, NO_STORES.(ticks := ticks), size1, docs).result.Ok?
    requires var st := RunFrom(first, NO_STORES.(ticks := ticks), size1, docs).st;
             && (forall k | k in st.records :: st.records[k].updatedAt < again.start)
             && RunFrom(again, st, size2, docs).result.Ok?
    ensures var st := RunFrom(first, NO_STORES.(ticks := ticks), size1, docs).st;
            var o := RunFrom(again, st, size2, docs);
            && o.st.records.Keys == st.records.Keys
            && o.result.value.numAdded == o.result.value.numDeleted
            && (o.result.value.numDeleted == 0 <==> !SourceSpansBatches(again, Batches(size2, docs), {}))
  {
    hide RunFrom;
    hide SourceSpansBatches;
    hide GroupGiven;
    var st := RunFrom(first, NO_STORES.(ticks := ticks), size1, docs).st;
    FirstRunRows(first, ticks, size1, docs);
    OwnGroups(first, st.records, docs);
    assert {} + HashSet(docs, again.hash) == HashSet(docs, again.hash);
    forall d ensures Source(first, d) == Source(again, d) {}
    assert Rows(again, st.records, {}, docs);
    IncrementalRerun(again, st, size2, docs);
  }

  /** An incremental run over new documents of a source removes what an earlier run has written under that source and
      what is not among them. */
  lemma ReplacedDocumentsGo(first: Env, again: Env, ticks: nat, size1: int, size2: int,
                            docs1: seq<Document>, docs2: seq<Document>, d: Document, e: Document)
    requires Timed(first) && again.cleanup == Incremental && again.start != 0
    requires again.hash == first.hash && again.sourceIdKey == first.sourceIdKey && GroupsAgree(first, docs1)
    requires DeduplicationKeepsSources(again, docs2)
    requires RunFrom(first, NO_STORES.(ticks := ticks), size1, docs1).result.Ok?
    requires var st := RunFrom(first, NO_STORES.(ticks := ticks), size1, docs1).st;
             && (forall k | k in st.records :: st.records[k].updatedAt < again.start)
             && RunFrom(again, st, size2, docs2).result.Ok?
    requires d in docs1 && e in docs2 && Source(first, d).Text? && Source(again, e) == Source(first, d)
    requires first.hash(d) !in HashSet(docs2, first.hash)
    ensures var st := RunFrom(first, NO_STORES.(ticks := ticks), size1, docs1).st;
            first.hash(d) in st.records && first.hash(d) !in RunFrom(again, st, size2, docs2).st.records
  {
    hide RunFrom;
    hide GroupGiven;
    hide DeduplicationKeepsSources;
    var st := RunFrom(first, NO_STORES.(ticks := ticks), size1, docs1).st;
    FirstRunRows(first, ticks, size1, docs1);
    OwnGroups(first, st.records, docs1);
    BatchSizeDoesNotMatter(again, st, size2, docs2);
    assert Source(again, e).text in SourceTexts(docs2, again);
  }
}
