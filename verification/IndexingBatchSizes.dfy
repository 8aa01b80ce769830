/** When the batch size shows in the keys that a run leaves. */
module IndexingBatchSizes {
  import opened Wrappers
  import opened Indexing
  import opened IndexingProofs
  import opened IndexingResults
  import opened IndexingClock

  // ---- the sources that the batches of a run show ----

  /** Deduplicating the whole list at once hides no source. */
  predicate DeduplicationKeepsSources(env: Env, docs: seq<Document>) {
    SourceTexts(Deduplicated(docs, env.hash, {}), env) == SourceTexts(docs, env)
  }

  lemma {:induction false} DeduplicatedConcat(a: seq<Document>, b: seq<Document>, hash: Document -> Key, seen: set<Key>)
    ensures Deduplicated(a + b, hash, seen)
            == Deduplicated(a, hash, seen) + Deduplicated(b, hash, seen + HashSet(a, hash))
    decreases |a|
  {
    if a == [] {
      assert a + b == b && seen + HashSet(a, hash) == seen;
    } else {
      assert (a + b)[1..] == a[1..] + b;
      HashSetHead(a, hash);
      var more := if hash(a[0]) in seen then seen else seen + {hash(a[0])};
      DeduplicatedConcat(a[1..], b, hash, more);
      assert more + HashSet(a[1..], hash) == seen + HashSet(a, hash);
    }
  }

  lemma {:induction false} SeenOnlyDrops(docs: seq<Document>, hash: Document -> Key, seen: set<Key>, more: set<Key>)
    requires seen <= more
    ensures forall d | d in Deduplicated(docs, hash, more) :: d in Deduplicated(docs, hash, seen)
    decreases |docs|
  {
    if docs != [] {
      var h := hash(docs[0]);
      if h in seen {
        SeenOnlyDrops(docs[1..], hash, seen, more);
      } else {
        SeenOnlyDrops(docs[1..], hash, seen + {h}, if h in more then more else more + {h});
      }
    }
  }

  lemma SourcesGrow(a: seq<Document>, b: seq<Document>, env: Env)
    requires forall d | d in a :: d in b
    ensures SourceTexts(a, env) <= SourceTexts(b, env)
  {
  }

  lemma SourcesConcat(a: seq<Document>, b: seq<Document>, env: Env)
    ensures SourceTexts(a + b, env) == SourceTexts(a, env) + SourceTexts(b, env)
  {
  }

  /** Whatever the batches, a run sees at least the sources that survive deduplication as a whole, and at most all. */
  lemma {:induction false} SeenSourcesBetween(env: Env, batches: seq<seq<Document>>, seen: set<Key>)
    ensures SourceTexts(Deduplicated(Flatten(batches), env.hash, seen), env) <= SeenSources(env, batches)
    ensures SeenSources(env, batches) <= SourceTexts(Flatten(batches), env)
    decreases |batches|
  {
    hide Deduplicated;
    hide SourceTexts;
    if batches == [] {
      NoSources(env, seen);
    } else {
      var batch, rest := batches[0], Flatten(batches[1..]);
      var hashes := seen + HashSet(batch, env.hash);
      SeenSourcesBetween(env, batches[1..], hashes);
      DeduplicatedConcat(batch, rest, env.hash, seen);
      SeenOnlyDrops(batch, env.hash, {}, seen);
      SourcesGrow(Deduplicated(batch, env.hash, seen), Deduplicated(batch, env.hash, {}), env);
      SourcesConcat(Deduplicated(batch, env.hash, seen), Deduplicated(rest, env.hash, hashes), env);
      DeduplicatedIsDistinct(batch, env.hash, {});
      SourcesGrow(Deduplicated(batch, env.hash, {}), batch, env);
      SourcesConcat(batch, rest, env);
    }
  }

  lemma NoSources(env: Env, seen: set<Key>)
    ensures SourceTexts(Deduplicated([], env.hash, seen), env) == {}
  {
  }

  /** One document a batch shows every source; one batch for all shows those that survive deduplication. */
  lemma {:induction false} SeenOneByOne(env: Env, docs: seq<Document>)
    ensures SeenSources(env, Batches(1, docs)) == SourceTexts(docs, env)
    decreases |docs|
  {
    if docs != [] {
      var d, rest := docs[0], docs[1..];
      assert docs == [d] + rest;
      FirstBatch(1, [d], rest);
      SeenOneByOne(env, rest);
      assert [d][1..] == [];
      assert Deduplicated([d], env.hash, {}) == [d];
      SourcesConcat([d], rest, env);
    }
  }

  lemma SeenAtOnce(env: Env, docs: seq<Document>)
    ensures SeenSources(env, Batches(|docs|, docs)) == SourceTexts(Deduplicated(docs, env.hash, {}), env)
  {
    if docs != [] {
      assert Batches(|docs|, docs) == [docs];
      assert [docs][1..] == [];
    }
  }

  // ---- the batch size ----

  /** The keys a run leaves are a function of what it found, its documents and its start time, and the batch size has
      no part in it; in incremental mode this is so when deduplication hides no source. */
  lemma BatchSizeDoesNotMatter(env: Env, st: State, batchSize: int, docs: seq<Document>)
    requires Timed(env) && (env.cleanup == Incremental ==> DeduplicationKeepsSources(env, docs))
    requires RunFrom(env, st, batchSize, docs).result.Ok?
    ensures RunFrom(env, st, batchSize, docs).st.records.Keys
            == FinalKeys(env, st.records, docs, SourceTexts(docs, env))
  {
    RunLeavesFinalKeys(env, st, batchSize, docs);
    BatchesFlatten(batchSize, docs);
    SeenSourcesBetween(env, Batches(batchSize, docs), {});
  }

  /** The same for the whole of `index`, start time included. */
  lemma IndexLeavesFinalKeys(hash: Document -> Key, opts: Options, clock: nat -> nat, st: State, docs: seq<Document>)
    requires var env := MakeEnv(hash, opts, clock, clock(st.ticks));
             Timed(env) && (env.cleanup == Incremental ==> DeduplicationKeepsSources(env, docs))
    requires Run(hash, opts, clock, st, docs).result.Ok?
    ensures var env := MakeEnv(hash, opts, clock, clock(st.ticks));
            Run(hash, opts, clock, st, docs).st.records.Keys == FinalKeys(env, st.records, docs, SourceTexts(docs, env))
  {
    hide RunFrom;
    var env := MakeEnv(hash, opts, clock, clock(st.ticks));
    BatchSizeDoesNotMatter(env, st.(ticks := st.ticks + 1), opts.batchSize, docs);
  }

  function KeysLeft(env: Env, st: State, batchSize: int, docs: seq<Document>): set<Key> {
    RunFrom(env, st, batchSize, docs).st.records.Keys
  }

  /** All batch sizes leave the same keys, whatever the stores held before. */
  ghost predicate SizesAgree(env: Env, docs: seq<Document>) {
    forall st: State, size1: int, size2: int :: KeysLeft(env, st, size1, docs) == KeysLeft(env, st, size2, docs)
  }

  function Content(d: Document): Key { d.pageContent }

  lemma NewKey(keys: set<Key>) returns (k: Key)
    ensures k !in keys
  {
    forall m: nat, n: nat | Content(Supply(NoSource, m)) == Content(Supply(NoSource, n)) ensures m == n {
      LettersLength(m);
      LettersLength(n);
    }
    var n := SupplyLeaves(Content, NoSource, keys);
    k := Content(Supply(NoSource, n));
  }

  /** Nothing but one old row. */
  function OneRow(k: Key, source: string): State { State(map[k := Record(0, Some(source))], map[], 0) }

  /** One old row, found under a source that only deduplication hides, goes or stays with the batch size. */
  lemma HiddenSourceShows(env: Env, docs: seq<Document>, k: Key, source: string)
    requires env.cleanup == Incremental && env.start != 0 && NeverBelow(env, 0)
    requires forall d | d in docs :: Acceptable(env, d)
    requires k !in HashSet(docs, env.hash)
    requires source in SourceTexts(docs, env) && source !in SourceTexts(Deduplicated(docs, env.hash, {}), env)
    ensures KeysLeft(env, OneRow(k, source), 1, docs) == HashSet(docs, env.hash)
    ensures KeysLeft(env, OneRow(k, source), |docs|, docs) == HashSet(docs, env.hash) + {k}
  {
    hide RunBatches;
    hide Batches;
    hide SeenSources;
    hide SourceTexts;
    hide Acceptable;
    hide HashSet;
    hide Deduplicated;
    var st := OneRow(k, source);
    BatchesFlatten(1, docs);
    BatchesFlatten(|docs|, docs);
    AcceptableRunsSucceed(env, st, NO_COUNTS, Batches(1, docs));
    AcceptableRunsSucceed(env, st, NO_COUNTS, Batches(|docs|, docs));
    RunLeavesFinalKeys(env, st, 1, docs);
    RunLeavesFinalKeys(env, st, |docs|, docs);
    SeenOneByOne(env, docs);
    SeenAtOnce(env, docs);
  }

  /** In incremental mode all batch sizes leave the same keys, whatever the stores held before, if and only if
      deduplicating the whole list at once hides no source. */
  lemma BatchSizesAgreeIff(env: Env, docs: seq<Document>)
    requires env.cleanup == Incremental && env.start != 0 && NeverBelow(env, 0)
    requires forall d | d in docs :: Acceptable(env, d)
    ensures SizesAgree(env, docs) <==> DeduplicationKeepsSources(env, docs)
  {
    hide Acceptable;
    hide KeysLeft;
    if DeduplicationKeepsSources(env, docs) {
      forall st: State, size1: int, size2: int
        ensures KeysLeft(env, st, size1, docs) == KeysLeft(env, st, size2, docs)
      {
        KeysAreFinal(env, st, size1, docs);
        KeysAreFinal(env, st, size2, docs);
      }
    } else {
      hide SourceTexts;
      hide HashSet;
      SeenSourcesBetween(env, Batches(1, docs), {});
      BatchesFlatten(1, docs);
      var source :| source in SourceTexts(docs, env) && source !in SourceTexts(Deduplicated(docs, env.hash, {}), env);
      var k := NewKey(HashSet(docs, env.hash));
      HiddenSourceShows(env, docs, k, source);
      var st := OneRow(k, source);
      assert KeysLeft(env, st, 1, docs) != KeysLeft(env, st, |docs|, docs);
    }
  }

  lemma KeysAreFinal(env: Env, st: State, batchSize: int, docs: seq<Document>)
    requires Timed(env) && NeverBelow(env, 0) && DeduplicationKeepsSources(env, docs)
    requires forall d | d in docs :: Acceptable(env, d)
    ensures KeysLeft(env, st, batchSize, docs) == FinalKeys(env, st.records, docs, SourceTexts(docs, env))
  {
    hide Acceptable;
    hide RunBatches;
    hide FinalKeys;
    hide DeduplicationKeepsSources;
    BatchesFlatten(batchSize, docs);
    AcceptableRunsSucceed(env, st, NO_COUNTS, Batches(batchSize, docs));
    BatchSizeDoesNotMatter(env, st, batchSize, docs);
  }
}
