/** The record manager and the vector store as objects, and the indexing loop over them. */
module IndexingStores {
  import opened Wrappers
  import opened Indexing

  predicate Distinct(keys: seq<Key>) { forall i, j | 0 <= i < j < |keys| :: keys[i] != keys[j] }

  lemma Append(keys: seq<Key>, k: Key)
    requires Distinct(keys) && k !in KeySet(keys)
    ensures Distinct(keys + [k]) && KeySet(keys + [k]) == KeySet(keys) + {k}
  {
  }

  lemma DistinctCardinality(keys: seq<Key>)
    requires Distinct(keys)
    ensures |KeySet(keys)| == |keys|
  {
    if keys != [] {
      DistinctCardinality(keys[1..]);
      assert keys == [keys[0]] + keys[1..];
      assert KeySet(keys) == {keys[0]} + KeySet(keys[1..]);
    }
  }

  /** `all` is made of the keys taken so far and the rest. */
  ghost predicate Split(all: set<Key>, keys: seq<Key>, rest: set<Key>) {
    rest <= all && KeySet(keys) == all - rest && |keys| + |rest| == |all|
  }

  lemma SplitMove(all: set<Key>, keys: seq<Key>, rest: set<Key>, k: Key)
    requires Split(all, keys, rest) && k in rest && KeySet(keys + [k]) == KeySet(keys) + {k}
    ensures Split(all, keys + [k], rest - {k})
  {
  }

  /** Keys of a set in no particular order, as many as the limit allows; no limit when it is zero. */
  method Pick(all: set<Key>, limit: nat) returns (keys: seq<Key>)
    ensures Distinct(keys) && KeySet(keys) <= all
    ensures limit == 0 || |all| <= limit ==> KeySet(keys) == all
    ensures limit != 0 && |all| > limit ==> |keys| == limit
  {
    keys := [];
    var rest := all;
    while rest != {} && (limit == 0 || |keys| < limit)
      invariant Distinct(keys) && Split(all, keys, rest)
      invariant limit != 0 ==> |keys| <= limit
      decreases rest
    {
      var k :| k in rest;
      Append(keys, k);
      SplitMove(all, keys, rest, k);
      keys := keys + [k];
      rest := rest - {k};
    }
  }

  /** The rows of one namespace. The clock is scripted: its i-th reading is `clock(i)`. */
  class RecordManager {
    const clock: nat -> nat
    var ticks: nat
    var records: map<Key, Record>

    constructor (clock: nat -> nat, records: map<Key, Record>)
      ensures this.clock == clock && ticks == 0 && this.records == records
    {
      this.clock, ticks, this.records := clock, 0, records;
    }

    method GetTime() returns (t: nat)
      modifies this`ticks
      ensures t == clock(old(ticks)) && ticks == old(ticks) + 1
    {
      t := clock(ticks);
      ticks := ticks + 1;
    }

    method Exists(keys: seq<Key>) returns (found: seq<bool>)
      ensures |found| == |keys| && forall i | 0 <= i < |keys| :: found[i] <==> keys[i] in records
    {
      found := seq(|keys|, i requires 0 <= i < |keys| reads this => keys[i] in records);
    }

    /** One upsert statement per row, all with one reading of the clock. */
    method Update(keys: seq<Key>, groupIds: seq<Option<string>>, timeAtLeast: nat) returns (r: Result<(), Error>)
      requires |groupIds| == |keys|
      modifies this
      ensures keys == [] ==> r == Ok(()) && ticks == old(ticks) && records == old(records)
      ensures keys != [] ==>
        var now := clock(old(ticks));
        && ticks == old(ticks) + 1
        && (timeAtLeast != 0 && now < timeAtLeast ==> r == Err(TimeSync) && records == old(records))
        && (!(timeAtLeast != 0 && now < timeAtLeast) ==>
            r == Ok(()) && records == Upsert(old(records), keys, groupIds, now))
    {
      if |keys| == 0 { return Ok(()); }
      var updatedAt := GetTime();
      if timeAtLeast != 0 && updatedAt < timeAtLeast { return Err(TimeSync); }
      assert keys[0..] == keys && groupIds[0..] == groupIds;
      for i := 0 to |keys|
        invariant ticks == old(ticks) + 1
        invariant Upsert(records, keys[i..], groupIds[i..], updatedAt)
                == Upsert(old(records), keys, groupIds, updatedAt)
      {
        assert keys[i..][1..] == keys[i + 1..] && groupIds[i..][1..] == groupIds[i + 1..];
        var k := keys[i];
        records := records[k := Record(updatedAt, if k in records then records[k].group else groupIds[i])];
      }
      r := Ok(());
    }

    /** Any rows that match, as many as the limit allows: the statement has no ORDER BY. */
    method ListKeys(before: nat, limit: nat, groupIds: Option<set<string>>) returns (keys: seq<Key>)
      ensures Distinct(keys) && KeySet(keys) <= Listing(records, before, groupIds)
      ensures limit == 0 || |Listing(records, before, groupIds)| <= limit ==>
              KeySet(keys) == Listing(records, before, groupIds)
      ensures limit != 0 && |Listing(records, before, groupIds)| > limit ==> |keys| == limit
    {
      keys := Pick(Listing(records, before, groupIds), limit);
    }

    method DeleteKeys(keys: seq<Key>)
      modifies this`records
      ensures records == old(records) - KeySet(keys)
    {
      records := records - KeySet(keys);
    }
  }

  class VectorStore {
    var vectors: map<Key, Document>

    constructor (vectors: map<Key, Document>)
      ensures this.vectors == vectors
    {
      this.vectors := vectors;
    }

    method Add(docs: seq<Document>, ids: seq<Key>)
      requires |ids| == |docs|
      modifies this
      ensures vectors == AddDocuments(old(vectors), docs, ids)
    {
      assert docs[0..] == docs && ids[0..] == ids;
      for i := 0 to |docs|
        invariant AddDocuments(vectors, docs[i..], ids[i..]) == AddDocuments(old(vectors), docs, ids)
      {
        assert docs[i..][1..] == docs[i + 1..] && ids[i..][1..] == ids[i + 1..];
        vectors := vectors[ids[i] := docs[i]];
      }
    }

    method Remove(ids: seq<Key>)
      modifies this
      ensures vectors == old(vectors) - KeySet(ids)
    {
      vectors := vectors - KeySet(ids);
    }
  }

  function StateOf(rm: RecordManager, vs: VectorStore): State
    reads rm, vs
  {
    State(rm.records, vs.vectors, rm.ticks)
  }

  /** Sorts the documents of a batch into those that are only touched and those that are written. */
  method Classify(hashedDocs: seq<Document>, batchExists: seq<bool>, env: Env, ghost records: map<Key, Record>)
    returns (uids: seq<Key>, docsToIndex: seq<Document>, docsToUpdate: seq<Document>, seenDocs: set<Key>)
    requires |batchExists| == |hashedDocs|
    requires forall i | 0 <= i < |hashedDocs| :: batchExists[i] <==> env.hash(hashedDocs[i]) in records
    ensures docsToIndex == Written(hashedDocs, env, records) && uids == Hashes(docsToIndex, env.hash)
    ensures docsToUpdate == Skipped(hashedDocs, env, records)
    ensures seenDocs == Forced(hashedDocs, env, records)
  {
    uids, docsToIndex, docsToUpdate, seenDocs := [], [], [], {};
    for i := 0 to |hashedDocs|
      invariant docsToIndex == Written(hashedDocs[..i], env, records)
      invariant docsToUpdate == Skipped(hashedDocs[..i], env, records)
      invariant uids == Hashes(docsToIndex, env.hash)
      invariant seenDocs == Forced(hashedDocs[..i], env, records)
    {
      var hashedDoc := hashedDocs[i];
      assert hashedDocs[..i + 1] == hashedDocs[..i] + [hashedDoc];
      ClassifyAppend(hashedDocs[..i], hashedDoc, env, records);
      if batchExists[i] {
        if env.forceUpdate {
          seenDocs := seenDocs + {env.hash(hashedDoc)};
        } else {
          docsToUpdate := docsToUpdate + [hashedDoc];
          continue;
        }
      }
      uids := uids + [env.hash(hashedDoc)];
      docsToIndex := docsToIndex + [hashedDoc];
    }
    assert hashedDocs[..|hashedDocs|] == hashedDocs;
  }

  method TouchKnown(docsToUpdate: seq<Document>, rm: RecordManager, ghost vs: VectorStore, env: Env)
    returns (r: Result<(), Error>)
    requires env.clock == rm.clock
    modifies rm
    ensures Outcome(StateOf(rm, vs), r)
         == Update(env, old(StateOf(rm, vs)), Hashes(docsToUpdate, env.hash), NoGroups(|docsToUpdate|))
  {
    r := Ok(());
    if |docsToUpdate| > 0 {
      r := rm.Update(Hashes(docsToUpdate, env.hash), NoGroups(|docsToUpdate|), env.start);
    }
  }

  /** Touches and writes, and counts both. */
  method WriteBatch(hashedDocs: seq<Document>, rm: RecordManager, vs: VectorStore, env: Env, c: Counters)
    returns (r: Result<Counters, Error>)
    requires env.clock == rm.clock
    modifies rm, vs
    ensures var w := Write(env, old(StateOf(rm, vs)), hashedDocs);
            && StateOf(rm, vs) == w.st
            && match w.result
               case Err(e) => r == Err(e)
               case Ok(_) => r == Ok(Count(env, old(rm.records), c, hashedDocs))
  {
    var batchExists := rm.Exists(Hashes(hashedDocs, env.hash));
    var uids, docsToIndex, docsToUpdate, seenDocs := Classify(hashedDocs, batchExists, env, rm.records);
    var touched := TouchKnown(docsToUpdate, rm, vs, env);
    if touched.Err? { return Err(touched.error); }
    var numAdded, numUpdated, addedDocs := c.numAdded, c.numUpdated, c.addedDocs;
    if |docsToIndex| > 0 {
      vs.Add(docsToIndex, uids);
      addedDocs := addedDocs + docsToIndex;
      numAdded := numAdded + |docsToIndex| - |seenDocs|;
      numUpdated := numUpdated + |seenDocs|;
    } else {
      NothingForced(hashedDocs, env, old(rm.records));
      assert addedDocs == c.addedDocs + docsToIndex;
    }
    r := Ok(Counters(numAdded, numUpdated, c.numSkipped + |docsToUpdate|, c.numDeleted, addedDocs));
  }

  /** The writing half of a round. */
  method StoreBatch(hashedDocs: seq<Document>, rm: RecordManager, vs: VectorStore, env: Env, c: Counters)
    returns (r: Result<Counters, Error>)
    requires env.clock == rm.clock
    modifies rm, vs
    ensures Outcome(StateOf(rm, vs), r) == Store(env, old(StateOf(rm, vs)), c, hashedDocs)
  {
    r := WriteBatch(hashedDocs, rm, vs, env, c);
    if r.Ok? {
      var stamped := rm.Update(Hashes(hashedDocs, env.hash), Groups(hashedDocs, env), env.start);
      if stamped.Err? { r := Err(stamped.error); }
    }
  }

  /** Deletes one page from both stores. */
  method DeletePage(rm: RecordManager, vs: VectorStore, uidsToDelete: seq<Key>)
    modifies rm, vs
    ensures rm.records == old(rm.records) - KeySet(uidsToDelete) && rm.ticks == old(rm.ticks)
    ensures vs.vectors == old(vs.vectors) - KeySet(uidsToDelete)
  {
    vs.Remove(uidsToDelete);
    rm.DeleteKeys(uidsToDelete);
  }

  /** The unlimited cleanup of the batch's sources. */
  method CleanupGroups(rm: RecordManager, vs: VectorStore, before: nat, groupIds: set<string>) returns (numDeleted: nat)
    modifies rm, vs
    ensures var stale := old(Listing(rm.records, before, Some(groupIds)));
            StateOf(rm, vs) == Delete(old(StateOf(rm, vs)), stale) && numDeleted == |stale|
  {
    var uidsToDelete := rm.ListKeys(before, 0, Some(groupIds));
    DistinctCardinality(uidsToDelete);
    DeletePage(rm, vs, uidsToDelete);
    numDeleted := |uidsToDelete|;
  }

  method IndexAccepted(hashedDocs: seq<Document>, rm: RecordManager, vs: VectorStore, env: Env, c: Counters)
    returns (r: Result<Counters, Error>)
    requires env.clock == rm.clock
    modifies rm, vs
    ensures Outcome(StateOf(rm, vs), r) == RunAccepted(env, old(StateOf(rm, vs)), c, hashedDocs)
  {
    r := StoreBatch(hashedDocs, rm, vs, env, c);
    if r.Ok? && env.cleanup == Incremental {
      if exists v | v in Sources(hashedDocs, env) :: IsFalsy(v) { return Err(SourceEmpty); }
      var numDeleted := CleanupGroups(rm, vs, env.start, SourceTexts(hashedDocs, env));
      r := Ok(CountDeleted(r.value, numDeleted));
    }
  }

  /** One round of the batch loop. */
  method IndexBatch(batch: seq<Document>, rm: RecordManager, vs: VectorStore, env: Env, c: Counters)
    returns (r: Result<Counters, Error>)
    requires env.clock == rm.clock
    modifies rm, vs
    ensures Outcome(StateOf(rm, vs), r) == RunBatch(env, old(StateOf(rm, vs)), c, batch)
  {
    if exists d | d in batch :: HasReservedKey(d) { return Err(ReservedMetadata); }
    var hashedDocs := DeduplicateInOrder(batch, env.hash);
    if env.cleanup == Incremental && Null in Sources(hashedDocs, env) { return Err(SourceMissing); }
    r := IndexAccepted(hashedDocs, rm, vs, env, c);
  }

  method IndexBatches(batches: seq<seq<Document>>, rm: RecordManager, vs: VectorStore, env: Env)
    returns (r: Result<Counters, Error>)
    requires env.clock == rm.clock
    modifies rm, vs
    ensures Outcome(StateOf(rm, vs), r) == RunBatches(env, old(StateOf(rm, vs)), NO_COUNTS, batches)
  {
    var c := NO_COUNTS;
    assert batches[0..] == batches;
    for i := 0 to |batches|
      invariant RunBatches(env, StateOf(rm, vs), c, batches[i..])
              == RunBatches(env, old(StateOf(rm, vs)), NO_COUNTS, batches)
    {
      assert batches[i..][1..] == batches[i + 1..];
      var counted := IndexBatch(batches[i], rm, vs, env, c);
      if counted.Err? { return Err(counted.error); }
      c := counted.value;
    }
    r := Ok(c);
  }

  /** Without a document to write, none was forced. */
  lemma {:induction false} NothingForced(docs: seq<Document>, env: Env, records: map<Key, Record>)
    requires Written(docs, env, records) == []
    ensures Forced(docs, env, records) == {}
  {
    if docs != [] {
      NothingForced(docs[1..], env, records);
      assert docs == [docs[0]] + docs[1..];
      HashSetConcat([docs[0]], docs[1..], env.hash);
    }
  }

  /** The paged deletion: every page shrinks what is left, whichever rows the pages hold. */
  method FullCleanup(rm: RecordManager, vs: VectorStore, before: nat, cleanupBatchSize: nat) returns (numDeleted: nat)
    modifies rm, vs
    ensures var stale := old(Listing(rm.records, before, None));
            StateOf(rm, vs) == Delete(old(StateOf(rm, vs)), stale) && numDeleted == |stale|
  {
    ghost var r0, v0, t0 := rm.records, vs.vectors, rm.ticks;
    ghost var stale := Listing(r0, before, None);
    ghost var gone: set<Key> := {};
    numDeleted := 0;
    assert r0 - {} == r0 && v0 - {} == v0;
    var uidsToDelete := rm.ListKeys(before, cleanupBatchSize, None);
    while |uidsToDelete| > 0
      invariant gone <= stale && numDeleted == |gone|
      invariant rm.records == r0 - gone && vs.vectors == v0 - gone && rm.ticks == t0
      invariant Distinct(uidsToDelete) && KeySet(uidsToDelete) <= stale - gone
      invariant |uidsToDelete| == 0 ==> stale - gone == {}
      decreases stale - gone
    {
      ghost var page := KeySet(uidsToDelete);
      assert uidsToDelete[0] in page;
      DistinctCardinality(uidsToDelete);
      MinusTwice(r0, gone, page);
      MinusTwice(v0, gone, page);
      DeletePage(rm, vs, uidsToDelete);
      numDeleted := numDeleted + |uidsToDelete|;
      gone := gone + page;
      uidsToDelete := rm.ListKeys(before, cleanupBatchSize, None);
      ListingMinus(r0, gone, before);
    }
    assert gone == stale;
  }

  method IndexFrom(docs: seq<Document>, rm: RecordManager, vs: VectorStore, opts: Options, env: Env)
    returns (r: Result<Counters, Error>)
    requires env.clock == rm.clock && env.cleanup == opts.cleanup
    modifies rm, vs
    ensures Outcome(StateOf(rm, vs), r) == RunFrom(env, old(StateOf(rm, vs)), opts.batchSize, docs)
  {
    var batches := Batch(opts.batchSize, docs);
    r := IndexBatches(batches, rm, vs, env);
    if r.Ok? && opts.cleanup == Full {
      var numDeleted := FullCleanup(rm, vs, env.start, opts.cleanupBatchSize);
      r := Ok(CountDeleted(r.value, numDeleted));
    }
  }

  method CountKeys(rm: RecordManager) returns (n: nat)
    ensures n == |rm.records|
  {
    var keys := rm.ListKeys(0, 0, None);
    DistinctCardinality(keys);
    ListingAll(rm.records);
    n := |keys|;
  }

  method Index(docs: seq<Document>, rm: RecordManager, vs: VectorStore, opts: Options, hash: Document -> Key)
    returns (r: Result<IndexingResult, Error>)
    modifies rm, vs
    ensures Outcome(StateOf(rm, vs), r) == Run(hash, opts, rm.clock, old(StateOf(rm, vs)), docs)
  {
    if opts.cleanup == Incremental && IsMissing(opts.sourceIdKey) { return Err(SourceKeyRequired); }
    var indexStartDt := rm.GetTime();
    var counted := IndexFrom(docs, rm, vs, opts, MakeEnv(hash, opts, rm.clock, indexStartDt));
    if counted.Err? { return Err(counted.error); }
    var totalKeys := CountKeys(rm);
    r := Ok(IndexingResult(counted.value, totalKeys));
  }
}
