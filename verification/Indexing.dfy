/** The incremental indexer: what a run does to the record manager and the vector store. */
module Indexing {
  import opened Wrappers

  type Key = string

  /** A metadata value, as far as the indexer looks at it. */
  datatype Value = Undefined | Null | Text(text: string) | Nested(fields: map<string, Value>)

  datatype Document = Document(pageContent: string, metadata: map<string, Value>)

  /** A row of the record manager: when it was last touched, and the source it was inserted under. */
  datatype Record = Record(updatedAt: nat, group: Option<string>)

  datatype SourceKey = NoSource | MetadataKey(name: string) | Assigner(assign: Document -> Value)

  datatype CleanupMode = NoCleanup | Incremental | Full

  datatype Options = Options(
    batchSize: int,
    cleanup: CleanupMode,
    sourceIdKey: SourceKey,
    cleanupBatchSize: nat,
    forceUpdate: bool)

  datatype Error = SourceKeyRequired | ReservedMetadata | SourceMissing | SourceEmpty | TimeSync

  datatype Counters = Counters(numAdded: int, numUpdated: int, numSkipped: int, numDeleted: int,
                               addedDocs: seq<Document>)

  datatype IndexingResult = IndexingResult(counters: Counters, totalKeys: nat)

  /** Both stores, and how many times the record manager's clock has been read. */
  datatype State = State(records: map<Key, Record>, vectors: map<Key, Document>, ticks: nat)

  datatype Outcome<T> = Outcome(st: State, result: Result<T, Error>)

  /** What stays fixed during a run. The clock gives its i-th reading; nothing says it never goes back. */
  datatype Env = Env(
    hash: Document -> Key,
    sourceIdKey: SourceKey,
    cleanup: CleanupMode,
    forceUpdate: bool,
    clock: nat -> nat,
    start: nat)

  const NO_COUNTS := Counters(0, 0, 0, 0, [])

  const RESERVED_KEYS := {"hash_", "content_hash", "metadata_hash"}

  predicate HasReservedKey(d: Document) { RESERVED_KEYS * d.metadata.Keys != {} }

  function AssignSource(key: SourceKey, d: Document): Value {
    match key
    case NoSource => Null
    case MetadataKey(name) => if name in d.metadata then d.metadata[name] else Undefined
    case Assigner(assign) => assign(d)
  }

  /** JavaScript's test for a source key that is not there. */
  predicate IsMissing(key: SourceKey) { key.NoSource? || (key.MetadataKey? && key.name == "") }

  predicate IsFalsy(v: Value) { v.Undefined? || v.Null? || v == Text("") }

  function Group(v: Value): Option<string> { if v.Text? then Some(v.text) else None }

  // ---- batches ----

  function AtLeastOne(size: int): nat { if size < 1 then 1 else size }

  /** Consecutive pieces of `size` items, the last one possibly shorter; a size below 1 acts like 1. */
  function Batches<T>(size: int, items: seq<T>): seq<seq<T>>
    decreases |items|
  {
    if items == [] then []
    else if |items| <= AtLeastOne(size) then [items]
    else [items[..AtLeastOne(size)]] + Batches(size, items[AtLeastOne(size)..])
  }

  function Flatten<T>(b: seq<seq<T>>): seq<T> {
    if b == [] then [] else b[0] + Flatten(b[1..])
  }

  lemma {:induction false} FlattenAppend<T>(b: seq<seq<T>>, last: seq<T>)
    ensures Flatten(b + [last]) == Flatten(b) + last
  {
    if b == [] {
      assert b + [last] == [last];
    } else {
      FlattenAppend(b[1..], last);
      assert (b + [last])[1..] == b[1..] + [last];
    }
  }

  lemma {:induction false} BatchesFlatten<T>(size: int, items: seq<T>)
    ensures Flatten(Batches(size, items)) == items
    decreases |items|
  {
    var n := AtLeastOne(size);
    if |items| > n {
      BatchesFlatten(size, items[n..]);
      assert items[..n] + items[n..] == items;
    } else if items != [] {
      assert [items][1..] == [];
    }
  }

  lemma FirstBatch<T>(size: int, first: seq<T>, more: seq<T>)
    requires |first| == AtLeastOne(size)
    ensures Batches(size, first + more) == [first] + Batches(size, more)
  {
    var items := first + more;
    assert items[..|first|] == first && items[|first|..] == more;
    if more == [] { assert items == first; }
  }

  /** Full batches followed by a shorter rest are the batches of the whole. */
  lemma {:induction false} FullBatchesAndRest<T>(size: int, full: seq<seq<T>>, rest: seq<T>)
    requires forall i | 0 <= i < |full| :: |full[i]| == AtLeastOne(size)
    requires |rest| < AtLeastOne(size)
    ensures Batches(size, Flatten(full) + rest) == full + if rest == [] then [] else [rest]
    decreases |full|
  {
    if full != [] {
      var more := Flatten(full[1..]) + rest;
      assert Flatten(full) + rest == full[0] + more;
      FirstBatch(size, full[0], more);
      FullBatchesAndRest(size, full[1..], rest);
      assert full == [full[0]] + full[1..];
    } else {
      assert Flatten(full) + rest == rest;
    }
  }

  method Batch<T>(size: int, iterable: seq<T>) returns (batches: seq<seq<T>>)
    ensures batches == Batches(size, iterable)
  {
    batches := [];
    var currentBatch: seq<T> := [];
    for i := 0 to |iterable|
      invariant Flatten(batches) + currentBatch == iterable[..i] && |currentBatch| < AtLeastOne(size)
      invariant forall j | 0 <= j < |batches| :: |batches[j]| == AtLeastOne(size)
    {
      currentBatch := currentBatch + [iterable[i]];
      if |currentBatch| >= size {
        FlattenAppend(batches, currentBatch);
        batches := batches + [currentBatch];
        currentBatch := [];
      }
    }
    assert iterable[..|iterable|] == iterable;
    FullBatchesAndRest(size, batches, currentBatch);
    if |currentBatch| > 0 {
      batches := batches + [currentBatch];
    }
  }

  // ---- deduplication ----

  function HashSet(docs: seq<Document>, hash: Document -> Key): set<Key> { set d | d in docs :: hash(d) }

  lemma HashSetConcat(a: seq<Document>, b: seq<Document>, hash: Document -> Key)
    ensures HashSet(a + b, hash) == HashSet(a, hash) + HashSet(b, hash)
  {
  }

  function Hashes(docs: seq<Document>, hash: Document -> Key): seq<Key> {
    seq(|docs|, i requires 0 <= i < |docs| => hash(docs[i]))
  }

  /** The first document of every hash that is not in `seen`, in order. */
  function Deduplicated(docs: seq<Document>, hash: Document -> Key, seen: set<Key>): seq<Document> {
    if docs == [] then []
    else if hash(docs[0]) in seen then Deduplicated(docs[1..], hash, seen)
    else [docs[0]] + Deduplicated(docs[1..], hash, seen + {hash(docs[0])})
  }

  lemma HashSetHead(docs: seq<Document>, hash: Document -> Key)
    requires docs != []
    ensures HashSet(docs, hash) == {hash(docs[0])} + HashSet(docs[1..], hash)
  {
    assert docs == [docs[0]] + docs[1..];
    HashSetConcat([docs[0]], docs[1..], hash);
  }

  /** Deduplication loses no hash and keeps the order: what is left is a distinct selection. */
  lemma {:induction false} DeduplicatedKeepsHashes(docs: seq<Document>, hash: Document -> Key, seen: set<Key>)
    ensures HashSet(Deduplicated(docs, hash, seen), hash) == HashSet(docs, hash) - seen
  {
    if docs != [] {
      var d, rest := docs[0], docs[1..];
      HashSetHead(docs, hash);
      if hash(d) in seen {
        DeduplicatedKeepsHashes(rest, hash, seen);
      } else {
        DeduplicatedKeepsHashes(rest, hash, seen + {hash(d)});
        HashSetHead(Deduplicated(docs, hash, seen), hash);
      }
    }
  }

  lemma {:induction false} DeduplicatedIsDistinct(docs: seq<Document>, hash: Document -> Key, seen: set<Key>)
    ensures |Deduplicated(docs, hash, seen)| == |HashSet(docs, hash) - seen|
    ensures forall d | d in Deduplicated(docs, hash, seen) :: d in docs
  {
    if docs != [] {
      var d, rest := docs[0], docs[1..];
      HashSetHead(docs, hash);
      if hash(d) in seen {
        DeduplicatedIsDistinct(rest, hash, seen);
        assert HashSet(docs, hash) - seen == HashSet(rest, hash) - seen;
      } else {
        DeduplicatedIsDistinct(rest, hash, seen + {hash(d)});
        assert HashSet(docs, hash) - seen == {hash(d)} + (HashSet(rest, hash) - (seen + {hash(d)}));
      }
    }
  }

  method DeduplicateInOrder(docs: seq<Document>, hash: Document -> Key) returns (deduplicated: seq<Document>)
    ensures deduplicated == Deduplicated(docs, hash, {})
  {
    var seen: set<Key> := {};
    deduplicated := [];
    assert docs[0..] == docs;
    for i := 0 to |docs|
      invariant deduplicated + Deduplicated(docs[i..], hash, seen) == Deduplicated(docs, hash, {})
    {
      assert docs[i..] == [docs[i]] + docs[i + 1..];
      if hash(docs[i]) !in seen {
        seen := seen + {hash(docs[i])};
        deduplicated := deduplicated + [docs[i]];
      }
    }
  }

  function KeySet(keys: seq<Key>): set<Key> { set k | k in keys }

  lemma HashesAreHashSet(docs: seq<Document>, hash: Document -> Key)
    ensures KeySet(Hashes(docs, hash)) == HashSet(docs, hash)
  {
    forall k | k in HashSet(docs, hash) ensures k in Hashes(docs, hash) {
      var d :| d in docs && hash(d) == k;
      var i :| 0 <= i < |docs| && docs[i] == d;
      assert Hashes(docs, hash)[i] == k;
    }
  }

  // ---- the two stores ----

  /** Inserts the rows or touches them: a row that is there keeps the group it was inserted with. */
  function Upsert(records: map<Key, Record>, keys: seq<Key>, groups: seq<Option<string>>, now: nat): map<Key, Record>
    requires |groups| == |keys|
    decreases |keys|
  {
    if keys == [] then records
    else
      var k := keys[0];
      var group := if k in records then records[k].group else groups[0];
      Upsert(records[k := Record(now, group)], keys[1..], groups[1..], now)
  }

  function AddDocuments(vectors: map<Key, Document>, docs: seq<Document>, ids: seq<Key>): map<Key, Document>
    requires |ids| == |docs|
    decreases |docs|
  {
    if docs == [] then vectors
    else AddDocuments(vectors[ids[0] := docs[0]], docs[1..], ids[1..])
  }

  /** The rows a listing returns. A bound or a limit of zero is no bound at all. */
  predicate Listed(r: Record, before: nat, groups: Option<set<string>>) {
    && (before != 0 ==> r.updatedAt < before)
    && (groups.Some? ==> r.group.Some? && r.group.value in groups.value)
  }

  function Listing(records: map<Key, Record>, before: nat, groups: Option<set<string>>): set<Key> {
    set k | k in records && Listed(records[k], before, groups)
  }

  lemma ListingAll(records: map<Key, Record>)
    ensures Listing(records, 0, None) == records.Keys
  {
  }

  lemma ListingMinus(records: map<Key, Record>, gone: set<Key>, before: nat)
    ensures Listing(records - gone, before, None) == Listing(records, before, None) - gone
  {
  }

  lemma MinusTwice<T>(m: map<Key, T>, a: set<Key>, b: set<Key>)
    ensures m - a - b == m - (a + b)
  {
  }

  // ---- one batch ----

  function Source(env: Env, d: Document): Value { AssignSource(env.sourceIdKey, d) }

  function Sources(docs: seq<Document>, env: Env): seq<Value> {
    seq(|docs|, i requires 0 <= i < |docs| => Source(env, docs[i]))
  }

  function Groups(docs: seq<Document>, env: Env): seq<Option<string>> {
    seq(|docs|, i requires 0 <= i < |docs| => Group(Source(env, docs[i])))
  }

  function SourceTexts(docs: seq<Document>, env: Env): set<string> {
    set d | d in docs && Source(env, d).Text? :: Source(env, d).text
  }

  /** The documents that are only touched, and those that are (re)written. */
  function Skipped(docs: seq<Document>, env: Env, records: map<Key, Record>): seq<Document> {
    if docs == [] then []
    else (if env.hash(docs[0]) in records && !env.forceUpdate then [docs[0]] else []) + Skipped(docs[1..], env, records)
  }

  function Written(docs: seq<Document>, env: Env, records: map<Key, Record>): seq<Document> {
    if docs == [] then []
    else (if env.hash(docs[0]) in records && !env.forceUpdate then [] else [docs[0]]) + Written(docs[1..], env, records)
  }

  /** The keys of the rewritten documents that were there before. */
  function Forced(docs: seq<Document>, env: Env, records: map<Key, Record>): set<Key> {
    if env.forceUpdate then HashSet(docs, env.hash) * records.Keys else {}
  }

  lemma {:induction false} ClassifyAppend(docs: seq<Document>, d: Document, env: Env, records: map<Key, Record>)
    ensures var known := env.hash(d) in records;
            && Skipped(docs + [d], env, records)
                == Skipped(docs, env, records) + (if known && !env.forceUpdate then [d] else [])
            && Written(docs + [d], env, records)
                == Written(docs, env, records) + (if known && !env.forceUpdate then [] else [d])
            && Forced(docs + [d], env, records)
                == Forced(docs, env, records) + (if known && env.forceUpdate then {env.hash(d)} else {})
    decreases |docs|
  {
    HashSetConcat(docs, [d], env.hash);
    HashSetHead([d], env.hash);
    if docs == [] {
      assert docs + [d] == [d];
    } else {
      assert (docs + [d])[1..] == docs[1..] + [d];
      ClassifyAppend(docs[1..], d, env, records);
    }
  }

  /** `update`: nothing for no keys, otherwise one reading of the clock, refused when it is before the start. */
  function Update(env: Env, st: State, keys: seq<Key>, groups: seq<Option<string>>): Outcome<()>
    requires |groups| == |keys|
  {
    if keys == [] then Outcome(st, Ok(()))
    else
      var now := env.clock(st.ticks);
      var read := st.(ticks := st.ticks + 1);
      if env.start != 0 && now < env.start then Outcome(read, Err(TimeSync))
      else Outcome(read.(records := Upsert(st.records, keys, groups, now)), Ok(()))
  }

  function NoGroups(n: nat): seq<Option<string>> { seq(n, i => None) }

  function Delete(st: State, keys: set<Key>): State {
    st.(records := st.records - keys, vectors := st.vectors - keys)
  }

  function CountBatch(c: Counters, skipped: nat, written: seq<Document>, forced: nat): Counters {
    Counters(c.numAdded + |written| - forced, c.numUpdated + forced, c.numSkipped + skipped, c.numDeleted,
             c.addedDocs + written)
  }

  function CountDeleted(c: Counters, deleted: nat): Counters {
    Counters(c.numAdded, c.numUpdated, c.numSkipped, c.numDeleted + deleted, c.addedDocs)
  }

  /** Touch what is known, then write what is not to the vector store. */
  function Write(env: Env, st: State, docs: seq<Document>): Outcome<()> {
    var skipped, written := Skipped(docs, env, st.records), Written(docs, env, st.records);
    var touched := Update(env, st, Hashes(skipped, env.hash), NoGroups(|skipped|));
    if touched.result.Err? then touched
    else Outcome(touched.st.(vectors := AddDocuments(st.vectors, written, Hashes(written, env.hash))), Ok(()))
  }

  /** What a batch adds to the counters, judged by the records as the batch found them. */
  function Count(env: Env, records: map<Key, Record>, c: Counters, docs: seq<Document>): Counters {
    CountBatch(c, |Skipped(docs, env, records)|, Written(docs, env, records), |Forced(docs, env, records)|)
  }

  /** Touch and write, then stamp every document of the batch with its source. */
  function Store(env: Env, st: State, c: Counters, docs: seq<Document>): Outcome<Counters> {
    var written := Write(env, st, docs);
    if written.result.Err? then Outcome(written.st, Err(written.result.error))
    else
      var stamped := Update(env, written.st, Hashes(docs, env.hash), Groups(docs, env));
      if stamped.result.Err? then Outcome(stamped.st, Err(stamped.result.error))
      else Outcome(stamped.st, Ok(Count(env, st.records, c, docs)))
  }

  /** Removes what a listing returns from both stores. */
  function Cleanup(st: State, c: Counters, before: nat, groups: Option<set<string>>): Outcome<Counters> {
    var stale := Listing(st.records, before, groups);
    Outcome(Delete(st, stale), Ok(CountDeleted(c, |stale|)))
  }

  /** What is thrown before a batch changes anything. */
  function Refusal(env: Env, batch: seq<Document>): Option<Error> {
    if exists d | d in batch :: HasReservedKey(d) then Some(ReservedMetadata)
    else if env.cleanup == Incremental && Null in Sources(Deduplicated(batch, env.hash, {}), env)
    then Some(SourceMissing)
    else None
  }

  function RunAccepted(env: Env, st: State, c: Counters, docs: seq<Document>): Outcome<Counters> {
    var stored := Store(env, st, c, docs);
    if stored.result.Err? || env.cleanup != Incremental then stored
    else if exists v | v in Sources(docs, env) :: IsFalsy(v) then Outcome(stored.st, Err(SourceEmpty))
    else Cleanup(stored.st, stored.result.value, env.start, Some(SourceTexts(docs, env)))
  }

  function RunBatch(env: Env, st: State, c: Counters, batch: seq<Document>): Outcome<Counters> {
    var refusal := Refusal(env, batch);
    if refusal.Some? then Outcome(st, Err(refusal.value))
    else RunAccepted(env, st, c, Deduplicated(batch, env.hash, {}))
  }

  function RunBatches(env: Env, st: State, c: Counters, batches: seq<seq<Document>>): Outcome<Counters>
    decreases |batches|
  {
    if batches == [] then Outcome(st, Ok(c))
    else
      var first := RunBatch(env, st, c, batches[0]);
      if first.result.Err? then first
      else RunBatches(env, first.st, first.result.value, batches[1..])
  }

  // ---- a whole run ----

  /** The batches, then the full cleanup, for a start time already read. */
  function RunFrom(env: Env, st: State, batchSize: int, docs: seq<Document>): Outcome<Counters> {
    var run := RunBatches(env, st, NO_COUNTS, Batches(batchSize, docs));
    if run.result.Err? || env.cleanup != Full then run
    else Cleanup(run.st, run.result.value, env.start, None)
  }

  function MakeEnv(hash: Document -> Key, opts: Options, clock: nat -> nat, start: nat): Env {
    Env(hash, opts.sourceIdKey, opts.cleanup, opts.forceUpdate, clock, start)
  }

  /** The counters and the number of keys left, when nothing was thrown. */
  function Report(run: Outcome<Counters>): Outcome<IndexingResult> {
    Outcome(run.st, if run.result.Err? then Err(run.result.error)
                    else Ok(IndexingResult(run.result.value, |run.st.records|)))
  }

  function Run(hash: Document -> Key, opts: Options, clock: nat -> nat, st: State,
               docs: seq<Document>): Outcome<IndexingResult> {
    if opts.cleanup == Incremental && IsMissing(opts.sourceIdKey) then Outcome(st, Err(SourceKeyRequired))
    else
      var env := MakeEnv(hash, opts, clock, clock(st.ticks));
      Report(RunFrom(env, st.(ticks := st.ticks + 1), opts.batchSize, docs))
  }
}
