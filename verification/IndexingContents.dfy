/** What a run leaves in the rows and documents of both stores, beyond their keys. */
module IndexingContents {
  import opened Wrappers
  import opened Indexing
  import opened IndexingProofs

  /** Documents that share a hash with none before them. */
  predicate DistinctHashes(docs: seq<Document>, hash: Document -> Key) {
    forall i, j | 0 <= i < j < |docs| :: hash(docs[i]) != hash(docs[j])
  }

  lemma {:induction false} DeduplicatedHashes(docs: seq<Document>, hash: Document -> Key, seen: set<Key>)
    ensures var kept := Deduplicated(docs, hash, seen);
            && DistinctHashes(kept, hash)
            && forall d | d in kept :: d in docs && hash(d) !in seen
    decreases |docs|
  {
    if docs != [] {
      var d, rest := docs[0], docs[1..];
      if hash(d) in seen {
        DeduplicatedHashes(rest, hash, seen);
      } else {
        DeduplicatedHashes(rest, hash, seen + {hash(d)});
        var more := Deduplicated(rest, hash, seen + {hash(d)});
        forall j | 0 <= j < |more| ensures hash(more[j]) != hash(d) { assert more[j] in more; }
      }
    }
  }

  // ---- rows ----

  /** A document of `docs` has this hash and this source. */
  ghost predicate GroupGiven(env: Env, docs: seq<Document>, k: Key, group: Option<string>) {
    exists d | d in docs :: env.hash(d) == k && group == Group(Source(env, d))
  }

  /** Every row has the group it was found with, or that of a document of the run. */
  ghost predicate GroupsKnown(env: Env, found: map<Key, Record>, records: map<Key, Record>, docs: seq<Document>) {
    forall k | k in records ::
      (k in found && records[k].group == found[k].group) || GroupGiven(env, docs, k, records[k].group)
  }

  lemma GroupGivenGrows(env: Env, docs: seq<Document>, more: seq<Document>, k: Key, group: Option<string>)
    requires GroupGiven(env, docs, k, group) && forall d | d in docs :: d in more
    ensures GroupGiven(env, more, k, group)
  {
  }

  lemma NewRowHasSource(env: Env, records: map<Key, Record>, docs: seq<Document>, now: nat, k: Key)
    requires DistinctHashes(docs, env.hash) && k !in records && k in HashSet(docs, env.hash)
    ensures var r := Upsert(records, Hashes(docs, env.hash), Groups(docs, env), now);
            k in r && GroupGiven(env, docs, k, r[k].group)
  {
    var d :| d in docs && env.hash(d) == k;
    var i :| 0 <= i < |docs| && docs[i] == d;
    var keys := Hashes(docs, env.hash);
    forall j | 0 <= j < i ensures keys[j] != keys[i] {}
    UpsertGivesGroups(records, keys, Groups(docs, env), now, i);
  }

  /** Storing a batch of distinct documents. */
  lemma StoreGroups(env: Env, st: State, c: Counters, docs: seq<Document>)
    requires DistinctHashes(docs, env.hash) && Store(env, st, c, docs).result.Ok?
    ensures var r := Store(env, st, c, docs).st.records;
            forall k | k in r ::
              if k in st.records then r[k].group == st.records[k].group else GroupGiven(env, docs, k, r[k].group)
  {
    hide Upsert;
    hide GroupGiven;
    var skipped := Skipped(docs, env, st.records);
    ClassifyFacts(docs, env, st.records);
    HashesAreHashSet(skipped, env.hash);
    HashesAreHashSet(docs, env.hash);
    UpsertFacts(st.records, Hashes(skipped, env.hash), NoGroups(|skipped|), env.clock(st.ticks));
    var written := Write(env, st, docs).st;
    UpsertFacts(written.records, Hashes(docs, env.hash), Groups(docs, env), env.clock(written.ticks));
    forall k | k in HashSet(docs, env.hash) && k !in written.records
      ensures var r := Upsert(written.records, Hashes(docs, env.hash), Groups(docs, env), env.clock(written.ticks));
              k in r && GroupGiven(env, docs, k, r[k].group)
    {
      NewRowHasSource(env, written.records, docs, env.clock(written.ticks), k);
    }
  }

  // ---- documents ----

  lemma {:induction false} AddedDocuments(vectors: map<Key, Document>, docs: seq<Document>, hash: Document -> Key)
    requires DistinctHashes(docs, hash)
    ensures var r := AddDocuments(vectors, docs, Hashes(docs, hash));
            && (forall d | d in docs :: hash(d) in r && r[hash(d)] == d)
            && (forall k | k in r && k !in HashSet(docs, hash) :: k in vectors && r[k] == vectors[k])
    decreases |docs|
  {
    if docs != [] {
      var d, rest := docs[0], docs[1..];
      var ids := Hashes(docs, hash);
      assert ids[0] == hash(d) && ids[1..] == Hashes(rest, hash);
      forall i, j | 0 <= i < j < |rest| ensures hash(rest[i]) != hash(rest[j]) {
        assert rest[i] == docs[i + 1] && rest[j] == docs[j + 1];
      }
      AddedDocuments(vectors[hash(d) := d], rest, hash);
      HashSetHead(docs, hash);
      assert hash(d) !in HashSet(rest, hash) by {
        forall e | e in rest ensures hash(e) != hash(d) {
          var i :| 0 <= i < |rest| && rest[i] == e;
          assert docs[i + 1] == e;
        }
      }
      AddFacts(vectors[hash(d) := d], rest, hash);
    }
  }

  lemma {:induction false} WrittenAre(docs: seq<Document>, env: Env, records: map<Key, Record>)
    requires DistinctHashes(docs, env.hash)
    ensures var written := Written(docs, env, records);
            && DistinctHashes(written, env.hash)
            && forall d :: d in written <==> d in docs && (env.hash(d) !in records || env.forceUpdate)
    decreases |docs|
  {
    if docs != [] {
      var rest := docs[1..];
      forall i, j | 0 <= i < j < |rest| ensures env.hash(rest[i]) != env.hash(rest[j]) {
        assert rest[i] == docs[i + 1] && rest[j] == docs[j + 1];
      }
      WrittenAre(rest, env, records);
      var more := Written(rest, env, records);
      forall j | 0 <= j < |more| ensures env.hash(more[j]) != env.hash(docs[0]) {
        assert more[j] in more && more[j] in rest;
        var i :| 0 <= i < |rest| && rest[i] == more[j];
        assert docs[i + 1] == more[j];
      }
    }
  }

  /** What a batch of distinct documents writes: new ones and forced ones under their own hash, and nothing else. */
  lemma StoreDocuments(env: Env, st: State, c: Counters, docs: seq<Document>)
    requires DistinctHashes(docs, env.hash) && Store(env, st, c, docs).result.Ok?
    ensures var r := Store(env, st, c, docs).st.vectors;
            && (forall d | d in docs && (env.hash(d) !in st.records || env.forceUpdate) ::
                  env.hash(d) in r && r[env.hash(d)] == d)
            && (forall k | k in r && !(k in HashSet(docs, env.hash) && (k !in st.records || env.forceUpdate)) ::
                  k in st.vectors && r[k] == st.vectors[k])
  {
    var written := Written(docs, env, st.records);
    WrittenAre(docs, env, st.records);
    AddedDocuments(st.vectors, written, env.hash);
    assert Store(env, st, c, docs).st.vectors == AddDocuments(st.vectors, written, Hashes(written, env.hash)) by {
      hide AddDocuments;
      hide Written;
    }
  }

  /** Documents of the run under this hash. */
  predicate DocumentGiven(env: Env, docs: seq<Document>, k: Key, d: Document) { d in docs && env.hash(d) == k }

  /** Every stored document was there or is one of the run's; with `forceUpdate` it is one of the run's wherever the
      run has one, and without it and without incremental cleanup a known one stays. */
  ghost predicate DocumentsKnown(env: Env, found: State, vectors: map<Key, Document>, docs: seq<Document>) {
    && (forall k | k in vectors ::
          (k in found.vectors && vectors[k] == found.vectors[k]) || DocumentGiven(env, docs, k, vectors[k]))
    && (env.forceUpdate ==>
          forall k | k in vectors && k in HashSet(docs, env.hash) :: DocumentGiven(env, docs, k, vectors[k]))
    && (!env.forceUpdate && env.cleanup != Incremental ==>
          forall k | k in vectors && k in found.records :: k in found.vectors && vectors[k] == found.vectors[k])
  }

  // ---- whole runs ----

  /** What holds of both stores after the documents `docs`. */
  ghost predicate Contents(env: Env, found: State, now: State, docs: seq<Document>) {
    && GroupsKnown(env, found.records, now.records, docs)
    && DocumentsKnown(env, found, now.vectors, docs)
    && (env.cleanup != Incremental ==> found.records.Keys <= now.records.Keys)
  }

  lemma ContentsAfterStore(env: Env, found: State, st: State, c: Counters, before: seq<Document>, batch: seq<Document>)
    requires Contents(env, found, st, before)
    requires Store(env, st, c, Deduplicated(batch, env.hash, {})).result.Ok?
    ensures Contents(env, found, Store(env, st, c, Deduplicated(batch, env.hash, {})).st, before + batch)
  {
    hide Store;
    var docs := Deduplicated(batch, env.hash, {});
    var o := Store(env, st, c, docs);
    DeduplicatedHashes(batch, env.hash, {});
    DeduplicatedKeepsHashes(batch, env.hash, {});
    GroupsAfterStore(env, found, st, c, before, batch);
    StoreDocuments(env, st, c, docs);
    HashSetConcat(before, batch, env.hash);
    forall k | k in o.st.vectors
      ensures (k in found.vectors && o.st.vectors[k] == found.vectors[k])
              || DocumentGiven(env, before + batch, k, o.st.vectors[k])
    {
      if k in HashSet(docs, env.hash) && (k !in st.records || env.forceUpdate) {
        var d :| d in docs && env.hash(d) == k;
      }
    }
    if env.forceUpdate {
      forall k | k in o.st.vectors && k in HashSet(before + batch, env.hash)
        ensures DocumentGiven(env, before + batch, k, o.st.vectors[k])
      {
        if k in HashSet(docs, env.hash) {
          var d :| d in docs && env.hash(d) == k;
        }
      }
    }
  }

  lemma GroupsAfterStore(env: Env, found: State, st: State, c: Counters, before: seq<Document>, batch: seq<Document>)
    requires GroupsKnown(env, found.records, st.records, before)
    requires Store(env, st, c, Deduplicated(batch, env.hash, {})).result.Ok?
    ensures var o := Store(env, st, c, Deduplicated(batch, env.hash, {}));
            && GroupsKnown(env, found.records, o.st.records, before + batch)
            && st.records.Keys <= o.st.records.Keys
  {
    hide Store;
    hide GroupGiven;
    var docs := Deduplicated(batch, env.hash, {});
    var r := Store(env, st, c, docs).st.records;
    DeduplicatedHashes(batch, env.hash, {});
    StoreGroups(env, st, c, docs);
    StoreKeepsRows(env, st, c, docs);
    forall k | k in r
      ensures (k in found.records && r[k].group == found.records[k].group)
              || GroupGiven(env, before + batch, k, r[k].group)
    {
      if k !in st.records {
        GroupGivenGrows(env, docs, before + batch, k, r[k].group);
      } else if GroupGiven(env, before, k, st.records[k].group) {
        GroupGivenGrows(env, before, before + batch, k, r[k].group);
      }
    }
  }

  lemma StoreKeepsRows(env: Env, st: State, c: Counters, docs: seq<Document>)
    requires Store(env, st, c, docs).result.Ok?
    ensures st.records.Keys <= Store(env, st, c, docs).st.records.Keys
  {
    WriteFacts(env, st, docs);
    UpdateFacts(env, Write(env, st, docs).st, docs, Groups(docs, env));
  }

  lemma ContentsAfterDelete(env: Env, found: State, st: State, docs: seq<Document>, keys: set<Key>)
    requires Contents(env, found, st, docs)
    ensures var after := Delete(st, keys);
            && GroupsKnown(env, found.records, after.records, docs) && DocumentsKnown(env, found, after.vectors, docs)
            && (env.cleanup == Incremental ==> Contents(env, found, after, docs))
  {
    hide GroupGiven;
  }

  lemma {:induction false} RunBatchesContents(env: Env, found: State, st: State, c: Counters,
                                              before: seq<Document>, batches: seq<seq<Document>>)
    requires Contents(env, found, st, before) && RunBatches(env, st, c, batches).result.Ok?
    ensures Contents(env, found, RunBatches(env, st, c, batches).st, before + Flatten(batches))
    decreases |batches|
  {
    hide Contents;
    hide Store;
    hide Refusal;
    hide Deduplicated;
    if batches == [] {
      assert before + Flatten(batches) == before;
    } else {
      var batch, rest := batches[0], batches[1..];
      var docs := Deduplicated(batch, env.hash, {});
      var stored := Store(env, st, c, docs);
      var first := RunBatch(env, st, c, batch);
      ContentsAfterStore(env, found, st, c, before, batch);
      if env.cleanup == Incremental {
        ContentsAfterDelete(env, found, stored.st, before + batch,
                            Listing(stored.st.records, env.start, Some(SourceTexts(docs, env))));
      }
      RunBatchesContents(env, found, first.st, first.result.value, before + batch, rest);
      assert before + batch + Flatten(rest) == before + Flatten(batches);
    }
  }

  /** After a run that throws nothing, in every mode: a row whose key was not found has the source of a document of the
      run with that hash, other rows keep their source or have been written anew; and every stored document was there
      or is a document of the run with that hash, with `forceUpdate` always the latter. */
  lemma RunContents(env: Env, st: State, batchSize: int, docs: seq<Document>)
    requires RunFrom(env, st, batchSize, docs).result.Ok?
    ensures var o := RunFrom(env, st, batchSize, docs);
            GroupsKnown(env, st.records, o.st.records, docs) && DocumentsKnown(env, st, o.st.vectors, docs)
  {
    hide GroupGiven;
    BatchesFlatten(batchSize, docs);
    var batches := Batches(batchSize, docs);
    assert Contents(env, st, st, []) by {
      assert HashSet([], env.hash) == {};
    }
    RunBatchesContents(env, st, st, NO_COUNTS, [], batches);
    assert [] + Flatten(batches) == docs;
    var run := RunBatches(env, st, NO_COUNTS, batches);
    ContentsAfterDelete(env, st, run.st, docs, Listing(run.st.records, env.start, None));
  }
}
