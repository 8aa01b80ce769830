/** What document hashes see, and what that means for the batch size. */
module IndexingHashes {
  import opened Wrappers
  import opened Indexing
  import opened IndexingProofs
  import opened IndexingResults
  import opened IndexingClock
  import opened IndexingBatchSizes
  import opened IndexingReruns

  // ---- what the hash of a document sees ----

  /** What JSON keeps of a metadata value when only the listed keys are replaced: a nested object keeps those of its
      fields whose names are listed, too. */
  function Listable(v: Value, keys: set<string>): Value {
    match v
    case Nested(fields) =>
      Nested(map k | k in fields && k in keys && !fields[k].Undefined? :: Listable(fields[k], keys))
    case _ => v
  }

  /** What is hashed: the text, and the metadata with its own top-level keys as the list. */
  function Serialized(d: Document): Document {
    Document(d.pageContent,
             map k | k in d.metadata && !d.metadata[k].Undefined? :: Listable(d.metadata[k], d.metadata.Keys))
  }

  /** A hash without collisions. */
  ghost predicate Lossless(hash: Document -> Key) {
    forall d: Document, e: Document {:trigger hash(d), hash(e)} ::
      hash(d) == hash(e) <==> Serialized(d) == Serialized(e)
  }

  lemma LosslessTellsApart(hash: Document -> Key, key: SourceKey)
    requires Lossless(hash)
    ensures TellsApart(hash, key)
  {
    forall m: nat, n: nat | hash(Supply(key, m)) == hash(Supply(key, n)) ensures m == n {
      assert Serialized(Supply(key, m)).pageContent == Serialized(Supply(key, n)).pageContent;
      LettersLength(m);
      LettersLength(n);
    }
  }

  /** The text under a top-level key is hashed. */
  lemma TopLevelTextIsHashed(d: Document, e: Document, name: string)
    requires Serialized(d) == Serialized(e) && name in d.metadata && d.metadata[name].Text?
    ensures name in e.metadata && e.metadata[name] == d.metadata[name]
  {
    assert name in Serialized(d).metadata && Serialized(d).metadata[name] == d.metadata[name];
    assert name in Serialized(e).metadata;
    assert Serialized(e).metadata[name] == Listable(e.metadata[name], e.metadata.Keys);
  }

  /** With a source key that names a metadata entry, deduplication never hides a source. */
  lemma NamedSourcesAreKept(env: Env, docs: seq<Document>)
    requires Lossless(env.hash) && !env.sourceIdKey.Assigner?
    ensures DeduplicationKeepsSources(env, docs)
  {
    hide Lossless;
    hide Serialized;
    var kept := Deduplicated(docs, env.hash, {});
    DeduplicatedKeepsHashes(docs, env.hash, {});
    DeduplicatedIsDistinct(docs, env.hash, {});
    forall d | d in docs && Source(env, d).Text? ensures Source(env, d).text in SourceTexts(kept, env) {
      assert env.hash(d) in HashSet(docs, env.hash);
      var e :| e in kept && env.hash(e) == env.hash(d);
      SameSerialized(env.hash, d, e);
      TopLevelTextIsHashed(d, e, env.sourceIdKey.name);
    }
  }

  /** Nor do documents with one hash have two sources. */
  lemma NamedSourcesAgree(env: Env, docs: seq<Document>)
    requires Lossless(env.hash) && !env.sourceIdKey.Assigner?
    ensures GroupsAgree(env, docs)
  {
    hide Lossless;
    hide Serialized;
    forall d, e | d in docs && e in docs && env.hash(d) == env.hash(e)
      ensures Group(Source(env, d)) == Group(Source(env, e))
    {
      SameSerialized(env.hash, d, e);
      if Source(env, d).Text? { TopLevelTextIsHashed(d, e, env.sourceIdKey.name); }
      if Source(env, e).Text? { TopLevelTextIsHashed(e, d, env.sourceIdKey.name); }
    }
  }

  lemma SameSerialized(hash: Document -> Key, d: Document, e: Document)
    requires Lossless(hash)
    ensures hash(d) == hash(e) <==> Serialized(d) == Serialized(e)
  {
  }

  /** So a run's keys do not depend on its batch size, in any mode, unless the source key is a function. */
  lemma NamedSourcesMakeSizesAgree(env: Env, st: State, size1: int, size2: int, docs: seq<Document>)
    requires Timed(env) && Lossless(env.hash) && !env.sourceIdKey.Assigner?
    requires RunFrom(env, st, size1, docs).result.Ok? && RunFrom(env, st, size2, docs).result.Ok?
    ensures KeysLeft(env, st, size1, docs) == KeysLeft(env, st, size2, docs)
  {
    hide Lossless;
    hide RunFrom;
    hide DeduplicationKeepsSources;
    NamedSourcesAreKept(env, docs);
    BatchSizeDoesNotMatter(env, st, size1, docs);
    BatchSizeDoesNotMatter(env, st, size2, docs);
  }

  // ---- a source that the hash does not see ----

  const FIRST: Document := Document("text", map["loc" := Nested(map["file" := Text("x")])])
  const SECOND: Document := Document("text", map["loc" := Nested(map["file" := Text("y")])])

  function FileOf(d: Document): Value {
    if "loc" in d.metadata && d.metadata["loc"].Nested? && "file" in d.metadata["loc"].fields
    then d.metadata["loc"].fields["file"]
    else Null
  }

  lemma NestedSourceIsNotHashed()
    ensures Serialized(FIRST) == Serialized(SECOND)
    ensures FileOf(FIRST) == Text("x") && FileOf(SECOND) == Text("y")
  {
    assert "file" !in {"loc"};
    assert Listable(Nested(map["file" := Text("x")]), {"loc"}) == Nested(map[]);
    assert Listable(Nested(map["file" := Text("y")]), {"loc"}) == Nested(map[]);
    assert FIRST.metadata.Keys == {"loc"} == SECOND.metadata.Keys;
  }

  /** A function that reads its source from nested metadata: a row found under the source of the second document goes
      when the two are indexed one by one, and stays when they share a batch, whatever the hash. */
  lemma BatchSizeShowsNestedSources(env: Env, k: Key)
    requires Lossless(env.hash) && env.sourceIdKey == Assigner(FileOf)
    requires env.cleanup == Incremental && env.start != 0 && NeverBelow(env, 0)
    requires k != env.hash(FIRST)
    ensures KeysLeft(env, OneRow(k, "y"), 1, [FIRST, SECOND]) == {env.hash(FIRST)}
    ensures KeysLeft(env, OneRow(k, "y"), 2, [FIRST, SECOND]) == {env.hash(FIRST), k}
  {
    hide KeysLeft;
    var docs := [FIRST, SECOND];
    NestedSourceIsNotHashed();
    SameSerialized(env.hash, FIRST, SECOND);
    TwoDocuments(env);
    HiddenSourceShows(env, docs, k, "y");
  }

  lemma TwoDocuments(env: Env)
    requires env.sourceIdKey == Assigner(FileOf) && env.hash(FIRST) == env.hash(SECOND)
    ensures var docs := [FIRST, SECOND];
            && HashSet(docs, env.hash) == {env.hash(FIRST)}
            && SourceTexts(docs, env) == {"x", "y"}
            && SourceTexts(Deduplicated(docs, env.hash, {}), env) == {"x"}
            && forall d | d in docs :: Acceptable(env, d)
  {
    var docs := [FIRST, SECOND];
    var none: seq<Document> := [];
    NestedSourceIsNotHashed();
    assert docs[1..] == [SECOND] && [SECOND][1..] == none;
    HashSetHead(docs, env.hash);
    HashSetHead([SECOND], env.hash);
    var seen: set<Key> := {};
    assert seen + {env.hash(FIRST)} == {env.hash(FIRST)};
    assert Deduplicated([SECOND], env.hash, {env.hash(FIRST)}) == [];
    assert Deduplicated(docs, env.hash, {}) == [FIRST];
    assert Source(env, FIRST) == Text("x") && Source(env, SECOND) == Text("y");
    assert FIRST in docs && SECOND in docs && FIRST in [FIRST];
    assert SourceTexts([FIRST], env) == {"x"};
    assert !HasReservedKey(FIRST) && !HasReservedKey(SECOND);
  }
}
