# Verified models of Flowise's self-contained algorithms

Most of the repository connects libraries to each other. The parts modelled here decide something on their own:

- **The incremental indexer** keeps a record manager (keys with a time stamp and a source group) and a vector store
  (documents by key) in step, in batches, with three cleanup modes. The two stores are objects
  (`IndexingStores.RecordManager`, `IndexingStores.VectorStore`) with a scripted clock that may run backwards; `Index`
  is proved to compute `Indexing.Run`, about which everything else is proved.
- **The schema parser** reads `z.object({...})` texts without evaluating them and builds validators. Its functions
  terminate on every text; a printer is its partner, what is read of a printed schema is a function of the schema, and
  the validators accept exactly the values that the schema means.
- **Text scanners**: prompt variables in braces, the rewriter that doubles braces, and the token-based escape that is
  also applied to objects in place, shared ones included.
- **The crawler**: a bounded depth-first search over pages that all calls push onto one list.
- **The agent executor**: its concurrent loop, as every interleaving of its tool calls, its iterator, and exactly when
  the two do the same.
- **The rate-limited chunker**: stream events and a timed loop over one buffer, as every interleaving of steps.
- **Outgoing requests**: the deny list against one 128-bit address space, and the two redirect followers.
- **Path containment**: the relative-path test and the prefix test.
- **The patch stripper**: a line machine over archived patches.

Loops and objects of the source are methods and classes here. Each is proved equal to a function of its inputs or of
its old state, and the theorems are about those functions.

Where the code and what is said about it part, the code is modelled and the difference is a lemma:

- A start time of zero turns off every time bound (`before` is tested for truth), so a full cleanup then empties both
  stores: `IndexingResults.FullRunKeepsItsDocuments`.
- The stores part exactly when a run reaches a round that writes a new document and is refused for its time when it
  stamps it: `IndexingProofs.RunKeepsStoresInStep`. Over all lists of documents this never happens if and only if no
  later reading of the clock is below the one that the run starts with: `IndexingClock.StoresAgreeIff`.
- An incremental rerun over unchanged documents is idle only when no source spans batches:
  `IndexingReruns.IncrementalRerun`.
- In incremental mode the batch size shows in the keys left if and only if deduplicating the whole list at once hides a
  source: `IndexingBatchSizes.BatchSizesAgreeIff`. This never happens with a source key that names a metadata entry,
  since top-level metadata is hashed (`IndexingHashes.NamedSourcesMakeSizesAgree`), and can happen with a function that reads nested
  metadata, since the list of replaced keys drops it from the hash (`IndexingHashes.BatchSizeShowsNestedSources`).
- The crawl misses pages when two reachable URLs of one page carry different relative links:
  `CrawlProofs.RelativeLinksAreMissed`.
- A printed schema comes back exactly when it is faithful (`ZodRoundTrip.TypeRoundTrip`): no key is `__proto__` or
  repeats, array indices come first and ascend, no object stands directly inside `z.array` without having been written
  as an array of objects (its modifiers are dropped), and no argument list starts and ends in a string (it is read as
  one string). Names like `int` pass the list of allowed types but cannot be built (`ZodBuild.AllowedIsNotBuildable`).
- A chunk size of zero emits empty chunks for ever: `Speech.LoopDrainsIff`.
- A host name on the deny list denies nothing, since names are compared with addresses; a range wider than the IPv4
  block inside IPv6 neither covers IPv4 addresses nor is read when it is written around them: `Requests.RefusedIff`.
- The prefix test allows nothing strictly below the root directory, the relative-path test does: `Paths.TestsAgree`.
- The stripper is documented as idempotent. It is not when the text ends, without a line boundary, in a protected
  header that follows another protected diff: `Patches.StripTwice`.
- The iterator does what the loop does if and only if no tool is missing or fails with a message, and a last tool that
  returns its result directly is the only one of its round: `AgentComparison.StreamedCallAgreesIff`. The iterator looks
  at a direct result only when the round has one step: `AgentComparison.TwoDirectToolsPart`.

## Model

| member | source | states |
|---|---|---|
| Indexing.Batch | packages/components/src/indexing.ts:175-193 | the loop cuts the list into consecutive pieces of the given size, the last one possibly shorter; a size below 1 acts like 1 |
| Indexing.BatchesFlatten | packages/components/src/indexing.ts:175-193 | the batches, joined, are the list: nothing is lost or reordered for any size |
| Indexing.DeduplicateInOrder | packages/components/src/indexing.ts:195-210 | the loop keeps the first document of every hash, in order |
| Indexing.DeduplicatedKeepsHashes | packages/components/src/indexing.ts:195-210 | no hash is lost by deduplication, and none that was seen before comes back |
| Indexing.DeduplicatedIsDistinct | packages/components/src/indexing.ts:195-210 | one document is left for each hash, and each of them was given |
| IndexingStores.RecordManager.Update | packages/components/nodes/recordmanager/PostgresRecordManager/PostgresRecordManager.ts:300-341 | no keys, no effect; otherwise one clock reading, refused when below `timeAtLeast`, stamps all keys; rows that exist keep the group they were inserted with |
| IndexingStores.RecordManager.ListKeys | packages/components/nodes/recordmanager/PostgresRecordManager/PostgresRecordManager.ts:370-423 | distinct matching keys in no particular order, all of them when no limit cuts them off, exactly `limit` when it does; zero bounds are no bounds |
| IndexingStores.RecordManager.DeleteKeys | packages/components/nodes/recordmanager/PostgresRecordManager/PostgresRecordManager.ts:425-444 | exactly the given keys leave the record manager |
| IndexingStores.Classify | packages/components/src/indexing.ts:299-315 | the loop splits a batch into known documents that are only touched, documents that are written with their ids, and known ones rewritten by `forceUpdate` |
| IndexingStores.FullCleanup | packages/components/src/indexing.ts:352-366 | the paged deletion terminates for every page size and whichever rows the pages hold, deletes exactly the rows older than the start from both stores, and counts them |
| IndexingStores.IndexBatch | packages/components/src/indexing.ts:283-350 | one round of the loop over both stores does to them, throws and counts what `RunBatch` says |
| IndexingStores.Index | packages/components/src/indexing.ts:257-378 | the whole procedure over both stores leaves the state, and returns or throws, what `Run` says, for every clock |
| IndexingProofs.UpsertFacts | packages/components/nodes/recordmanager/PostgresRecordManager/PostgresRecordManager.ts:327-331 | an upsert adds its keys and no others, stamps exactly them, and never changes the group of a row |
| IndexingProofs.UpsertGivesGroups | packages/components/nodes/recordmanager/PostgresRecordManager/PostgresRecordManager.ts:327-331 | a row that was not there gets the stamp, and the group that is given at its key's position |
| IndexingProofs.StorePartsIff | packages/components/src/indexing.ts:317-336 | storing a batch parts two stores that agree if and only if the touch is not refused, the reading that stamps is below a non-zero start, and a document is not yet recorded |
| IndexingProofs.RunFromPartsIff | packages/components/src/indexing.ts:283-366 | a run over all its batches, with its cleanup, ends with stores that disagree if and only if it reaches a round that parts them |
| IndexingProofs.RunKeepsStoresInStep | packages/components/src/indexing.ts:257-378 | the same for the whole procedure, in every mode, with or without `forceUpdate` and whatever is thrown; even then the vector store holds every recorded key, and beyond those only documents of the run, each under its own hash |
| IndexingResults.RunBatchesProgress | packages/components/src/indexing.ts:283-350 | after any number of batches every key touched so far is still there and stamped in this run, and every other row is one that was found and not swept, unchanged |
| IndexingResults.RunLeavesFinalKeys | packages/components/src/indexing.ts:283-366 | the final keys, for every list, batch size and cleanup mode: the documents' hashes plus the old keys that the mode keeps |
| IndexingContents.StoreGroups | packages/components/src/indexing.ts:333-336 | storing a batch gives every new row the source of the document with its hash, and leaves the groups of the others |
| IndexingContents.StoreDocuments | packages/components/src/indexing.ts:303-329 | storing a batch writes exactly the documents that are new or forced, each under its own hash, and leaves all others |
| IndexingContents.RunContents | packages/components/src/indexing.ts:283-366 | after a run in any mode every row whose key was not found has the source of a document of the run with that hash; every stored document was there or is one of the run's, with `forceUpdate` always the latter, and a known one is not rewritten without it |
| IndexingBatchSizes.SeenSourcesBetween | packages/components/src/indexing.ts:283-286 | however the list is cut into batches, the run sees at least the sources that survive deduplication as a whole, and at most all |
| IndexingBatchSizes.BatchSizeDoesNotMatter | packages/components/src/indexing.ts:281-366 | the keys left are one function of the found rows, the documents and the start time, for every batch size, in all modes (in incremental mode when deduplication hides no source) |
| IndexingBatchSizes.BatchSizesAgreeIff | packages/components/src/indexing.ts:281-349 | in incremental mode all batch sizes leave the same keys, whatever the stores held, if and only if deduplicating the whole list hides no source |
| IndexingHashes.NamedSourcesMakeSizesAgree | packages/components/src/indexing.ts:88-131 | with a collision-free hash of text and metadata and a source key that names a metadata entry, batch size never shows, in any mode |
| IndexingHashes.BatchSizeShowsNestedSources | packages/components/src/indexing.ts:127-131 | a source function over nested metadata, which the hash drops: sizes 1 and 2 leave different keys, for every such hash |
| IndexingBatchSizes.IndexLeavesFinalKeys | packages/components/src/indexing.ts:257-378 | the same formula for the whole procedure, with the start time read from the clock |
| IndexingResults.FullRunKeepsItsDocuments | packages/components/src/indexing.ts:352-366 | a full run keeps its own documents if and only if the start time is not zero or there are none |
| IndexingClock.RunUnderAFairClock | packages/components/src/indexing.ts:317-336 | when no later reading of the clock is below the start, the stores agree after every run, thrown errors included; between such readings the clock may go back |
| IndexingClock.IndexOneByOne | packages/components/src/indexing.ts:283-336 | over new documents, each a batch of its own, the stores agree afterwards if and only if none of the readings that stamp them is below the start |
| IndexingClock.StoresAgreeIff | packages/components/src/indexing.ts:257-378 | the stores agree after every run over every list in every batch size if and only if no later reading of the clock is below the one that the run starts with |
| IndexingResults.CountersBalance | packages/components/src/indexing.ts:274-377 | total keys = keys found + added - deleted; added + updated + skipped = the sizes of the deduplicated batches; added + updated = number of `addedDocs` |
| IndexingResults.FullRunOverKnownDocuments | packages/components/src/indexing.ts:297-366 | a full run over exactly what the stores hold adds, updates and deletes nothing and changes no document |
| IndexingResults.SecondFullRunChangesNothing | packages/components/src/indexing.ts:297-366 | full cleanup is idempotent: a second run over the same documents, with any batch size, changes nothing |
| IndexingReruns.IncrementalRerun | packages/components/src/indexing.ts:338-349 | an incremental rerun over unchanged documents adds as many as it deletes, and is idle if and only if no source spans batches |
| IndexingReruns.RerunAfterFirstRun | packages/components/src/indexing.ts:257-378 | the same from a first run on empty stores, whose rows are proved to carry their own sources: a later incremental run over the same documents is idle if and only if no source spans batches |
| IndexingReruns.ReplacedDocumentsGo | packages/components/src/indexing.ts:338-349 | an incremental run over other documents of a source removes what an earlier run wrote under that source and what is not among them |
| IndexingHashes.NamedSourcesAgree | packages/components/src/indexing.ts:88-98 | with a collision-free hash and a source key that names a metadata entry, documents of one hash have one source |
| IndexingClock.AcceptableRunsSucceed | packages/components/src/indexing.ts:283-350 | under such a clock, documents without reserved keys and with sources where needed are indexed without an error |
| IndexingClock.BatchErrors | packages/components/src/indexing.ts:284-341 | under such a clock a batch is refused for a reserved key, a null source, or a missing or empty one, in that order, and for nothing else |
| IndexingClock.RunsSucceedIff | packages/components/src/indexing.ts:283-350 | a run throws nothing if and only if no document has a reserved key and, in incremental mode, every surviving document has a source |
| IndexingClock.ClockGoingBackPartsTheStores | packages/components/src/indexing.ts:322-336 | a concrete clock that goes back between writing and recording: the stores disagree, for every hash |
| ZodParser.SplitPropertiesLoop | packages/components/src/secureZodParser.ts:91-126 | the loop cuts the text at the commas that are outside strings and brackets |
| ZodParser.ParseArrayContentLoop | packages/components/src/secureZodParser.ts:330-359 | the loop cuts the text at the commas outside strings and takes the quotes off the items |
| ZodParser.FindArrayEnd | packages/components/src/secureZodParser.ts:361-376 | the loop finds the parenthesis that matches the first one, or none |
| ZodParser.FindObjectEnd | packages/components/src/secureZodParser.ts:412-435 | the loop finds the parenthesis that closes an object after its braces are balanced, or none |
| ZodParser.ParseObjectModifiersLoop | packages/components/src/secureZodParser.ts:448-493 | the loop reads modifiers with their nested arguments up to the first text that is no word, and refuses names that are not allowed |
| ZodRoundTrip.ArgsRoundTripIff | packages/components/src/secureZodParser.ts:303-359 | printed arguments (a number, string or list, or several numbers and strings) come back if and only if they are not several between a first and a last string |
| ZodRoundTrip.ObjectModifiersRoundTrip | packages/components/src/secureZodParser.ts:448-493 | printed modifiers of an object are read back with the meaning of their arguments |
| ZodMeaning.MeantIff | packages/components/src/secureZodParser.ts:75-89 | what is read of a type is the type itself if and only if it is faithful: keys in the order of an object and none of them repeated or `__proto__`, no object directly inside an array, no argument list between two strings |
| ZodMeaning.PrototypeIsDropped | packages/components/src/secureZodParser.ts:75-89 | properties in the order of an object are read in that order, without those that name the prototype |
| ZodRoundTrip.TypeIsRead | packages/components/src/secureZodParser.ts:138-273 | every printed type (base types with modifiers, nested objects, arrays of types and of objects, with or without modifiers) is read as what it means |
| ZodRoundTrip.TypeRoundTrip | packages/components/src/secureZodParser.ts:138-273 | parsing undoes printing if and only if the type is faithful |
| ZodRoundTrip.PropertiesRoundTrip | packages/components/src/secureZodParser.ts:75-136 | printed properties are read as an object that has them set one after the other, in the enumeration order of the language |
| ZodRoundTrip.SchemaRoundTrip | packages/components/src/secureZodParser.ts:57-73 | a printed schema is read as what it means, and comes back if and only if it is faithful |
| ZodRoundTrip.ArrayOfObjectsRoundTrip | packages/components/src/secureZodParser.ts:235-273 | an array of objects is read with its own modifiers; modifiers of the object inside leave no trace |
| ZodClean.CleanLeavesTidyText | packages/components/src/secureZodParser.ts:44-55 | text without slashes and with single blanks only passes the cleaning step unchanged |
| ZodClean.LineCommentGoes | packages/components/src/secureZodParser.ts:45-46 | a line comment is removed up to the end of its line, and only that |
| ZodClean.BlockCommentGoes | packages/components/src/secureZodParser.ts:48-49 | a block comment is removed between its marks, and only that |
| ZodClean.BlanksCollapse | packages/components/src/secureZodParser.ts:51-52 | white space between other text becomes one blank |
| ZodClean.CleanedSchemaRoundTrip | packages/components/src/secureZodParser.ts:31-37 | the same after the cleaning step, for printed schemas whose literals are tidy |
| ZodBuild.ApplyModifiers | packages/components/src/secureZodParser.ts:629-677 | the loop applies the modifiers from left to right, each with its own test of the validator's kind |
| ZodBuild.ModifiersKeepCore | packages/components/src/secureZodParser.ts:629-677 | modifiers put one array around the validator for each `array` among them and never change what is validated inside |
| ZodBuild.BuildsIff | packages/components/src/secureZodParser.ts:546-627 | a type is built if and only if all its base types are one of five, enumerations with values; else the leftmost one that is not decides the failure |
| ZodBuild.PrintedSchemaBuilds | packages/components/src/secureZodParser.ts:31-42 | from text to validator: a printed schema builds exactly when the base types that are read do, with the validator of each property that is read under its key and in its place; all printed properties are read in place exactly when they are faithful |
| ZodAccepts.ModifiedAccepts | packages/components/src/secureZodParser.ts:629-677 | modifiers applied to a validator accept what they mean in the order in which they are written: optional, default, array, int, lengths of strings (all hold) and of arrays (the last of a kind holds) |
| ZodAccepts.BuiltAccepts | packages/components/src/secureZodParser.ts:556-627 | a built validator accepts exactly the values that conform to the type: its base type, enumeration values, elements, properties and modifiers |
| ZodAccepts.ObjectAccepts | packages/components/src/secureZodParser.ts:546-554 | the same for objects: every property is validated under its key, a missing one as undefined |
| ZodAccepts.PrintedSchemaAccepts | packages/components/src/secureZodParser.ts:31-42 | from text to values: a printed schema that builds accepts exactly the objects whose properties conform to the types read, and these are the printed ones exactly when the schema is faithful |
| ZodRefusals.ValidatesIff | packages/components/src/secureZodParser.ts:275-301 | validation passes exactly when all base types, however deep, use only names on the list |
| ZodRefusals.InvalidElementsAreRefused | packages/components/src/secureZodParser.ts:235-273 | an array of objects that are not valid is refused with what validation says |
| ZodRefusals.ObjectModifiersIff | packages/components/src/secureZodParser.ts:448-493 | the modifiers of an object are read if and only if all their names are on the list |
| ZodRefusals.ObjectSuffixIsRefused | packages/components/src/secureZodParser.ts:138-170 | an object with any modifier that is not on the list is refused |
| Braces.GetInputVariables | packages/components/src/utils.ts:333-362 | the index-and-stack scanner reports what a reader does that keeps the text behind every open brace |
| Nesting.StackIsOpen | packages/components/src/utils.ts:347-358 | a stack of positions holds exactly those that are still open by counting, each with as many open ones above it as the count says |
| Braces.VariablesAreMatches | packages/components/src/utils.ts:333-362 | by positions: the variables are exactly the texts between matching unescaped braces that hold no colon, in the order of their closing braces |
| Braces.OneVariable | packages/components/src/utils.ts:350-357 | one name between braces in text without braces is the one variable, unless it holds a colon |
| Braces.TransformKeepsInputVariables | packages/components/src/utils.ts:333-389 | doubling the braces around a colon changes no prompt variable, for every text |
| Braces.TransformDoublesGroups | packages/components/src/utils.ts:369-389 | by positions: exactly the braces of single-brace groups that hold a colon are doubled, and nothing else changes |
| Braces.TransformIsIdempotent | packages/components/src/utils.ts:369-389 | rewriting twice is rewriting once |
| Escapes.HandleEscapesJSONParse | packages/components/src/utils.ts:795-800 | the loop makes the seven replacements one after the other, in the table's order |
| Escapes.EscapeIsEncode | packages/components/src/utils.ts:785-800 | the seven replacements are one pass that writes a code for each character |
| Escapes.EscapedHasNoSpecials | packages/components/src/utils.ts:785-800 | escaped text holds none of the seven special characters |
| Escapes.RoundTrip | packages/components/src/utils.ts:785-800 | unescaping undoes escaping if and only if the text holds none of the seven marker words |
| Escapes.HandleTwice | packages/components/src/utils.ts:795-800 | escaping twice is escaping once, and so for unescaping |
| Escapes.ValueRoundTrip | packages/components/src/utils.ts:802-816 | the round trip on nested values, if and only if no string inside holds a marker word |
| EscapesInPlace.Iterate | packages/components/src/utils.ts:802-809 | the recursive pass in place: the object and all below it are handled, everything else is untouched or handled, although shared objects are visited several times |
| EscapesInPlace.HandleObject | packages/components/src/utils.ts:811-816 | after the pass the object stands for the escaped (or unescaped) value that it stood for before, whatever is shared |
| EscapesInPlace.DoneMeansHandled | packages/components/src/utils.ts:802-809 | objects whose own entries are all handled stand for the handled nested value |
| Crawl.Crawler.Crawl | packages/components/src/utils.ts:533-572 | the recursion over the shared list computes the depth-first visit, terminates, and only extends the list with new pages |
| CrawlProofs.CrawlIsExact | packages/components/src/utils.ts:533-572 | without a limit the list is exactly the reachable same-host pages, each once, when reachable URLs of one page have the same links |
| CrawlProofs.LimitTakesPrefix | packages/components/src/utils.ts:533 | a limit n > 0 gives the first n pages of the unlimited crawl |
| CrawlProofs.LimitedCrawlIsSound | packages/components/src/utils.ts:533-572 | with a limit, on any site, distinct reachable pages and at most n of them |
| CrawlProofs.RelativeLinksAreMissed | packages/components/src/utils.ts:514-524 | a site with a relative link behind a trailing slash on which the crawl misses a reachable page |
| CrawlProofs.OnePageIff | packages/components/src/utils.ts:514-524 | two URLs are one page exactly when host, port, path and query are equal but for one slash at the end |
| CrawlProofs.LinksIff | packages/components/src/utils.ts:546-565 | a page is read on from exactly when it answers below 400 with HTML |
| AgentLoop.RunRound | packages/components/src/agents.ts:426-532 | resuming the waiting actions in the scheduled order does what `Interleave` says |
| AgentLoop.CallLoop | packages/components/src/agents.ts:361-552 | the plan-and-act loop under any scheduler leaves the run that `Call` says |
| Agents.EveryInterleavingAgrees | packages/components/src/agents.ts:426-534 | any interleaving of a round yields the steps in plan order, and used tools, documents and artifacts up to their order; it rejects if and only if some action does |
| Agents.OneEntryPerResolvedTool | packages/components/src/agents.ts:426-532 | a round records exactly one used tool for each action whose tool resolves |
| ToolOutputs.ExplainsJoined | packages/components/src/agents.ts:451-467 | an answer made of output, arguments, artifact and documents behind their markers is taken apart into them, each as far as it can be parsed |
| ToolOutputs.ExplainsPlain | packages/components/src/agents.ts:451-467 | an answer without markers is all output |
| Agents.ToolIsLast | packages/components/src/agents.ts:362 | a name finds the last tool of that name, letter case aside, and none if there is none |
| Agents.AnswerIsRecorded | packages/components/src/agents.ts:451-530 | the output is the observation and what is recorded of the tool, its arguments replace the planned ones, its documents and artifacts are pushed |
| Agents.FailuresAreRecorded | packages/components/src/agents.ts:476-504 | failures are recorded with their message and no output, complaints are thrown or answered by the handler, unknown tools are not recorded |
| AgentLoop.PlansAreBounded | packages/components/src/agents.ts:357-388 | at most `maxIterations` plan calls, and that many rounds end the run |
| AgentRuns.CallIsTheRun | packages/components/src/agents.ts:361-552 | the runs of the loop are exactly those told by their states: each round adds the steps of the actions asked for and goes on, no more rounds begin than the bound allows, and the last state decides the end |
| AgentRuns.StopsIff | packages/components/src/agents.ts:357-383 | with a bound of n a run stops if and only if n rounds went on, after exactly n plan calls; it ends otherwise after at most n |
| AgentRuns.ScheduledStopsIff | packages/components/src/agents.ts:357-383 | the same under any scheduler that completes its rounds |
| AgentRuns.UnboundedNeverStops | packages/components/src/agents.ts:357-359 | without a bound no run stops by itself |
| AgentLoop.InterleavingsDoNotShow | packages/components/src/agents.ts:361-552 | whole runs under any scheduler that completes its rounds take the same steps, make as many plan calls and end the same way as the run in plan order |
| AgentLoop.ThreeResumptionsJoin | packages/components/src/agents.ts:426-532 | every schedule that resumes each action three times completes the round |
| AgentIterator.TakeNextStep | packages/components/src/agents.ts:554-666 | the loop takes the planned actions in order and gives their steps, or what was thrown |
| AgentIterator.NamesAreListed | packages/components/src/agents.ts:656-658 | the answer to an unknown name lists the names of all tools |
| AgentIterator.Iterator.ProcessNextStepOutput | packages/components/src/agents.ts:198-227 | final values are kept; steps are remembered and given away, and a single direct tool result becomes the final output |
| AgentIterator.Iterator.CallNext | packages/components/src/agents.ts:240-253 | one call of the state machine: throws once the end was reached, stops at the bound, otherwise takes a round |
| AgentIterator.Iterator.StreamIterator | packages/components/src/agents.ts:130-155 | the stream is a function of the agent alone, whatever was streamed before |
| AgentIterator.YieldsAreSteps | packages/components/src/agents.ts:130-227 | the steps given away are the steps remembered, in order |
| AgentIterator.StreamsAreBounded | packages/components/src/agents.ts:130-253 | at most `maxIterations` rounds and one value more, and then the stream ends |
| AgentRuns.StreamStopsIff | packages/components/src/agents.ts:240-253 | with a bound a stream returns the stopped response if and only if all the rounds that the bound allows went on, and then it has taken exactly that many |
| AgentComparison.StepsAgreeIff | packages/components/src/agents.ts:429-530 | loop and iterator reject the same actions, and give one action the same step if and only if its tool exists and does not fail with a message |
| AgentComparison.RoundsAgreeIff | packages/components/src/agents.ts:534-546 | a round of the loop and a call of the iterator have the same outcome if and only if both reject, or all observations are the same and a last tool that returns directly is the only one |
| AgentComparison.DirectResultsAgreeIff | packages/components/src/agents.ts:213-226 | when neither rejects and the last tool returns directly, the loop ends with its result, and the iterator has that final output if and only if the round has one action |
| AgentComparison.StreamedCallAgreesIff | packages/components/src/agents.ts:130-253 | whole runs: the stream gives the steps of the loop's run and returns its result if and only if all rounds of the run are alike |
| AgentComparison.TwoDirectToolsPart | packages/components/src/agents.ts:213-226 | a concrete agent that asks a direct tool twice: the loop ends with the result, the iterator has none, after the same steps |
| Speech.Processor.OnData | packages/components/src/textToSpeech.ts:171-175 | data is appended to the buffer unless aborted, and nothing else changes |
| Speech.Processor.ProcessChunks | packages/components/src/textToSpeech.ts:140-169 | one pass of the loop: aborts, emits a full chunk, emits the rest after the end, waits, or finishes |
| Speech.RunKeepsInv | packages/components/src/textToSpeech.ts:137-194 | every interleaving keeps emitted bytes + buffer = received bytes, full chunks, and the ties between abort, end and promise |
| Speech.EmittedIsPrefix | packages/components/src/textToSpeech.ts:137-194 | at every moment the emitted bytes are a prefix of the received ones, which are all sent bytes unless aborted |
| Speech.AbortStopsEverything | packages/components/src/textToSpeech.ts:142-175 | after an abort nothing more is emitted or received, whatever happens |
| Speech.CompletionEmitsEverything | packages/components/src/textToSpeech.ts:140-169 | a promise that resolved has emitted all bytes, in chunks that depend on the bytes alone |
| Speech.ChunksAreUnique | packages/components/src/textToSpeech.ts:152-159 | full chunks with a shorter last one are determined by their bytes |
| Speech.LoopDrainsIff | packages/components/src/textToSpeech.ts:140-169 | after the end the loop finishes if and only if the target size is not zero or nothing is left |
| Addresses.RangeIsBlock | packages/components/src/httpSecurity.ts:76-103 | a range covers an address after normalization exactly when the address lies in its block of the one address space, except for blocks wider than the IPv4 addresses on either side |
| Addresses.MappedRangeIsV4Range | packages/components/src/httpSecurity.ts:92-103 | an IPv4-mapped range of m >= 96 bits contains a mapped address exactly when the IPv4 range of m - 96 bits contains the IPv4 address |
| Addresses.NormalIsEmbedded | packages/components/src/httpSecurity.ts:113-121 | two addresses have equal normal forms exactly when they are one address of the space |
| Requests.IsDeniedIP | packages/components/src/httpSecurity.ts:73-130 | the scan gives the verdict of the first entry that has one, and none if no entry does |
| Requests.RefusedIff | packages/components/src/httpSecurity.ts:73-130 | an address is refused if and only if some entry denies it in the one address space, and the first such entry decides how; unreadable ranges deny everything, names nothing |
| Requests.ResolveAndValidate | packages/components/src/httpSecurity.ts:311-349 | resolves a URL to a target, all of whose addresses were checked, or to the first failure |
| Requests.ResolvesTo | packages/components/src/httpSecurity.ts:311-349 | a target is the address that the URL names, or the first IPv4 record of its name, or the first record when there is none |
| Requests.HostInBrackets | packages/components/src/httpSecurity.ts:315-319 | brackets around a host name are taken off, and nothing else |
| Requests.SecureAxiosRequest | packages/components/src/httpSecurity.ts:172-240 | the loop over one changing configuration, with both kinds of agents, sends the requests of `Follow` and ends as it says |
| Requests.SecureFetch | packages/components/src/httpSecurity.ts:251-302 | the loop over fresh options sends the same requests and ends the same way |
| Requests.FollowIsTheRun | packages/components/src/httpSecurity.ts:172-302 | a list of requests with an outcome is what following redirects gives if and only if each request is pinned to the target resolved for it, each is what the answer before asks for, and the last answer decides the outcome |
| Requests.RedirectTables | packages/components/src/httpSecurity.ts:204-236 | what counts as a redirect, and when a request becomes a GET, by status and method |
| Requests.TargetIsAllowed | packages/components/src/httpSecurity.ts:311-349 | a resolved target is an address that no entry denies, for every lookup result |
| Requests.EveryRequestIsAllowed | packages/components/src/httpSecurity.ts:172-349 | whatever lookups and servers answer, every request of a run connects to an address that no entry denies |
| Requests.RequestsAreBounded | packages/components/src/httpSecurity.ts:191-239 | at most one request more than redirects are allowed |
| Requests.GetStaysGet | packages/components/src/httpSecurity.ts:226-236 | a GET stays a GET and a dropped body never comes back; as long as there is a body, method and body are unchanged |
| Paths.EscapesIff | packages/components/src/validator.ts:467-470 | the relative path escapes exactly when the path is not strictly below the base |
| Paths.PrefixIff | packages/components/src/validator.ts:301-307 | the prefix test holds exactly strictly below a base that is not the root |
| Paths.TestsAgree | packages/components/src/validator.ts:271-277 | the two tests agree if and only if the path is not the base and the base is not the root |
| Paths.WithinIff | packages/components/src/validator.ts:301-307 | a resolved path is allowed exactly when it is one of the directories or strictly below one that is not the root |
| Paths.SafeIff | packages/components/src/validator.ts:444-473 | a path is given exactly when the key is not empty, holds no null character, and resolves to a path strictly below the base |
| PathWalks.DownAndUp | packages/components/src/validator.ts:460-461 | a plain part with two dots behind it can be left out of a path |
| PathWalks.WalkEnds | packages/components/src/validator.ts:460-461 | by counting: a walk ends at its start less the segments climbed over, followed by exactly the parts that no later two dots undo |
| PathWalks.SafeByDepth | packages/components/src/validator.ts:444-473 | a relative key is safe if and only if the parts that stay lead, from as far up as it climbs, back strictly below the base; an absolute one if and only if they begin with the base and go on |
| PathWalks.ClimbingKeys | packages/components/src/validator.ts:460-470 | a key that climbs first is refused unless what follows leads back strictly below the base |
| PathWalks.Refusals | packages/components/src/validator.ts:444-473 | which keys are refused for what, and which path is given otherwise |
| Paths.SafePathExtendsBase | packages/components/src/validator.ts:444-473 | the path given is the resolved base followed by at least one proper segment |
| Paths.PlainKeysAreSafe | packages/components/src/validator.ts:444-473 | keys made of plain segments are never refused and lead to the base followed by them |
| Patches.StripLine | upstream-archive/strip-protected-hunks.py:64-81 | one pass of the loop body: what is written, what is recorded, and whether body lines are dropped next |
| Patches.Strip | upstream-archive/strip-protected-hunks.py:60-82 | the loop over the lines writes the text and lists the paths that the line machine says |
| Patches.HeaderIff | upstream-archive/strip-protected-hunks.py:42 | a header is exactly the text of two paths without white space |
| Patches.EndIff | upstream-archive/strip-protected-hunks.py:45 | an end is exactly a signature, or a mail's first line with a hash of 7 to 40 digits |
| Patches.ProtectedIff | upstream-archive/strip-protected-hunks.py:56-57 | the paths that are protected |
| Patches.RemovedAt | upstream-archive/strip-protected-hunks.py:66-70 | the paths recorded are the first paths of the protected headers, line by line |
| Patches.StripKeepsTheRest | upstream-archive/strip-protected-hunks.py:64-81 | the lines written are those outside the bodies of protected diffs, in order, with a marker behind each protected header, and none inside |
| Patches.StripTwice | upstream-archive/strip-protected-hunks.py:60-82 | stripping twice is stripping once if and only if the text does not end in an open protected header met while dropping |
| Patches.StripParts | upstream-archive/strip-protected-hunks.py:60-82 | stripping and listing distribute over parts when the second starts with a header or an end line |
| Patches.SplitIsLines | upstream-archive/strip-protected-hunks.py:64 | splitting gives lines that stay separate when joined, and joined they are the text |

## Left out

- Hashes: SHA-256, UUIDs and the JSON text are one function of what is serialized, taken to be free of collisions where a statement says so; numbers, arrays and a document's own `uid` are not modelled, and neither are the hash fields that `calculateHashes` assigns.
- Sources: what a database makes of an object given as a source is read as a row without a group.
- Record manager: the `doc_id` column, the namespace suffix from `vectorStoreName`, the position of LIMIT before the group condition in the SQL text, and failures of the database.
- Schema literals: the printed grammar has no dots, quotes, backslashes, parentheses or braces inside literals, and no commas in strings beside other arguments; `.default({...})` is parsed but not printed.
- Schema numbers: unbounded, where the source's are exact up to 2^53.
- ZodAccepts.BuiltAccepts: what each kind of validator accepts is modelled after the schema library's documentation; not-a-number and infinite numbers, invalid dates and the values that a successful validation returns are not modelled, and what a limit that is not a number converts to is a parameter.
- Text: strings are sequences of Unicode characters, not of UTF-16 code units, and regular expressions are written out as the scans they stand for.
- EscapesInPlace.HandleObject: objects that refer to each other in a circle are excluded, since the source's recursion does not return on them; inherited properties are not enumerated.
- Crawl: URL parsing, HTML parsing and the request are the function that gives a page's links; `webCrawl`'s deny-list check and the sitemap variant are not part of this model.
- Crawl.Crawler.Crawl: without a limit the crawl is for sites with finitely many pages; on others the source does not return.
- Agents: a tool's answer is a function of the tool, the action and the round; callbacks, prompts, documents' JSON, tracing and the merging of final outputs with a memory are left out, and no tool has the name of a property that every JavaScript object inherits.
- AgentLoop.CallLoop: observed for a number of rounds, since a run without `maxIterations` need not end.
- AgentLoop.InterleavingsDoNotShow: schedulers that complete every round; one that abandons a round stands for a promise that never settles.
- AgentComparison.StreamedCallAgreesIff: for tools and answers whose names are in lower case, answers that plan at least one action, and parsing errors that are thrown; other names and the exception tool are looked up differently by the two.
- Speech: the clock, the sleeping and the stream's own buffering; listeners that abort from inside a callback.
- Address text: reading and printing addresses and ranges is a library, of which it is required only that what it prints it reads back; zone identifiers are not modelled.
- Requests: headers (among them the Host header that only one of the two functions sets), TLS, and the deny list's assembly from the environment; `checkDenyList` is the check without the pinning.
- Paths: Windows paths, symbolic links and the character checks of the two validators around the prefix test; `resolve` and `relative` are modelled after the documentation of Node's path module.
- Patches: reading and writing files, the report, and the skipping of files that hold a marker already.
- Everything else in the repository: user interface, credentials, storage providers, billing, caches and the flow generator are wiring over libraries or would only add easy members.
