# Memory Unlocked: a Dafny model

Memory Unlocked is a scoped memory store for agents. Writers add short facts to a namespace (a tenant and
a project) and optionally to a conversation thread inside it; readers recall them ranked and rendered
within a budget; a graph of typed relations and a plan of governance proposals are derived from them.
This project models that system and proves what it promises.

- **Store.** `StoreModel` is the store as a state machine over values: rows in insertion order, an index by
  namespace key, an audit log. `StoreLaws` proves what every run keeps. `LiveStore` is the store as it runs,
  a class whose memory objects are changed in place, proved against the state machine. `Gate` states which
  writes are let in, `QueryLaws` which memories a query answers, `RecordLaws` which records can be built and
  read, each on the fields and not through the functions that decide it.
- **Durable backends.** `Journal` is the append-only log with tombstones, `Table` the mutable table. Each
  reloads to the live state after every run, the table but for empty update times. `Writers` interleaves two
  writers on one log. `Exchange` and `ImportLaws` cover export and import, `Sessions` runs with imports among
  the operations.
  `Isolation` removes foreign operations from runs.
- **Crashes and restarts.** `Losses` says what a log replays to when lines are lost, `Crashes` what a store
  loses that goes on writing behind a torn line, `Restarts` that clean reopenings are not observable.
- **Retrieval.** `Corpus`, `Bm25`, `Vector`, `Fusion`, `Ranking` and `Retrieval` compute over `real`;
  `RetrievalLaws` states which results come back, and that their order does not depend on input order,
  `OrderLaws` which order that is, and `ScoreLaws` what moves a score up or down.
  `Grouping` relates duplicate groups to greedy removal.
- **Context.** `Render` renders one memory, `Budget` fills budgets with lines, and `Assembler` does so with
  memories; they prove which bounds really hold, and `Overshoot` that these are reached. `Recall` runs query,
  selection and rendering together and proves non-interference. `SelectionLaws` and `RecallLaws` state what is
  selected and recalled, and `RenderLaws` what cleaning leaves of a text.
- **Graph.** `Extraction` runs the rule table clause by clause, `SemanticGraph` accumulates entities and
  relations, `GraphLaws` and `GraphContext` state what reports over the graph can rely on. `ExtractionLaws` and
  `GraphContents` state edge by edge and entry by entry what a text and a graph hold, and in which order.
- **Curator.** `PairDetection`, `Curator` and `CuratorLaws` show that the plan is a function of the set of
  memories, `ProposalLaws` what is proposed of which memories, and that nothing is missing.
- **Tools.** `Seqs`, `Sorting`, `Text`, `Reals`, `Accumulate`, `Positions` and `Firsts` are shared lemmas; `Models`, `ThreadScope`,
  `Policy` and `Serialize` are the values, the thread rules, the write gate and the wire form.

Conventions. Ids and clock readings are inputs; a legal run adds well-formed objects under ids never used
before, as a fresh random id does. An id or time that is not assigned yet is the empty string. Regular
expressions, the secret and personal-data patterns, word tables, logarithm, square root, rounding, token
hashes and the proposal hash are function-valued or set-valued parameters; where a law about them is used
(`Lawful`, `Grows`, `MarksInline`, `Ordinary`, `NoCollision`) it is a stated precondition. Work on values is a function;
loops, dictionaries and objects of the Python program are methods and classes, each proved against such a function.

Where the code and its documentation differ, the code is followed. The index comment says scope is keyed by
namespace, but the key is not injective, and only the re-check makes queries exact (`Models.KeyDecidesIff`,
`StoreLaws.IndexedScope`). The token budget is documented as a bound, but joining newlines are not counted
(`Assembler.TrueBounds`, `Assembler.MemoryBudgetIff`, `Overshoot.BoundAttained`). Importing an export is
documented as a merge, but in redact mode a stored memory can be refused or changed
(`Exchange.RedactRoundTripIff`). Redaction is documented for every text field, but a thread is not redacted
(`Gate.LetInContent`). A partial last line is documented as tolerated, but the next record written
behind it is lost with it (`Crashes.ReloadIff`).

## Model

| member | source | states |
|---|---|---|
| `Models.NormalizeTagLoop` | memory_unlocked/models.py:140-148 | the tag loop with its seen-set returns the recursive normal form: stripped, lower-cased (ASCII), non-empty, each tag once, first occurrence kept |
| `Models.NormalizeTagsIdempotent` | memory_unlocked/models.py:140-148 | normalising tags twice gives what normalising once gives, so re-construction never moves tags |
| `Models.NormalizeTagsMembers` | memory_unlocked/models.py:140-148 | a tag is kept if and only if some given tag normalises to it and it is not empty |
| `Models.ConstructIdempotent` | memory_unlocked/models.py:119-148 | a record that construction accepts is accepted again unchanged |
| `Models.KeyDecidesIff` | memory_unlocked/models.py:53-55 | the serialised key of a valid namespace decides that namespace if and only if no other '/' in it divides it into two parts that are not blank |
| `Models.SingleSlashDecides` | memory_unlocked/models.py:53-55 | a key with a single '/' decides its namespace |
| `Models.KeysCollide` | memory_unlocked/models.py:53-55 | the condition can fail: two different valid namespaces serialise to one key |
| `Text.BlankIffStripped` | memory_unlocked/models.py:47-51 | a text is blank, judged by stripping it on the left, exactly when str.strip leaves nothing of it |
| `ThreadScope.NeverCrossesThreads` | memory_unlocked/thread_scope.py:93-113 | no selectable mode admits a row of a different named thread (what each mode admits: ThreadScope.AdmittedExactly) |
| `ThreadScope.RefusalIgnoresRow` | memory_unlocked/thread_scope.py:93-113 | whether a thread request is refused depends on the request, not on the row it is compared with |
| `Policy.ReviewKeepsForm` | memory_unlocked/policy.py:141-183 | whatever the gate accepts, redacted or not, is a well-formed record of the same namespace, thread and status |
| `Policy.ReviewReadsContent` | memory_unlocked/policy.py:131-183 | outside redact mode the verdict depends on writer-controlled fields only, so it survives id, time, status and confidence changes (which verdict it is: Gate.GateDecides) |
| `Serialize.RoundTrip` | memory_unlocked/serialize.py:33-75 | every record a memory can hold is read back unchanged after it is written |
| `Serialize.ReadIsWellFormed` | memory_unlocked/serialize.py:53-75 | whatever is read from a wire record, however incomplete, is a record that construction leaves alone |
| `Text.StripRemoves` | memory_unlocked/models.py:140-148 | stripping removes white space at both ends and nothing else, and leaves none there |
| `Text.ContainsIff` | memory_unlocked/store.py:176-182 | a needle is in a text exactly when it stands at some position of it |
| `Text.AtMostIff` | memory_unlocked/store.py:158-160 | times and ids are ordered by the first character in which they differ, a prefix before what extends it |
| `Text.WordsSplit` | memory_unlocked/ranking.py:41-43 | a character that is neither letter nor digit separates the tokens before it from those behind it |
| `Text.RunIsOneWord` | memory_unlocked/ranking.py:41-43 | a run of letters and digits between such characters is one token |
| `Models.NormalizeTagsGrow` | memory_unlocked/models.py:140-148 | further tags never change what earlier ones gave: the first of equal tags keeps its place |
| `RecordLaws.BuiltExactly` | memory_unlocked/models.py:119-148 | a record is built if and only if namespace, source, links, title, body, kind, status, confidence and thread are each acceptable, every condition stated on the field; and then only thread, expiry and tags change, in the stated way |
| `RecordLaws.ReadExactly` | memory_unlocked/serialize.py:53-75 | a wire record is read if and only if no required key is missing, nothing is null that may not be, and what it says, defaults included, is acceptable; then exactly that is built |
| `RecordLaws.OldRecordsAreRead` | memory_unlocked/serialize.py:53-75 | a memory written without any choice of its optional keys is read with defaults in their place: an active fact of confidence 1, of the project, without tags, links and expiry, last updated when it was created |
| `ThreadScope.NormalizedThread` | memory_unlocked/thread_scope.py:57-72 | blank names mean no thread, wildcards are refused in any case and with any white space around, other names are stripped |
| `ThreadScope.NormalThreadIff` | memory_unlocked/thread_scope.py:57-72 | a stored thread name is exactly one that is not empty, stripped, and no wildcard |
| `ThreadScope.AdmittedExactly` | memory_unlocked/thread_scope.py:75-113 | each mode admits exactly: null_only the rows of no thread, exact those of the named one, inherit and no mode both; any other mode is refused, and exact without a thread |
| `Gate.GateDecides` | memory_unlocked/policy.py:141-200 | a memory is accepted if and only if it passes all seven checks, each stated on the named fields, and otherwise refused for the first it fails |
| `Gate.LetInContent` | memory_unlocked/policy.py:174-218 | what is let in has the fields offered; in redact mode title, body, source reference, note and tags are redacted, and the thread is not |
| `Gate.AddIsDecided` | memory_unlocked/store.py:60-90 | an add stores and logs what passes the checks, last, under the new id and time, and otherwise stores nothing and reports and logs the first failing check |
| `Gate.StoredCameThrough` | memory_unlocked/store.py:60-90 | after every run every stored memory was offered by an add, passed every check then, and has kept what was let in but for status, confidence and update time |
| `Gate.StoredIsClean` | memory_unlocked/policy.py:141-200 | after every run outside redact mode no field of any stored memory (title, body, source reference, note, joined tags, thread) shows a secret, where secrets are scanned, or personal data, where that is rejected, and all size limits hold |
| `StoreModel.DoKeepsInv` | memory_unlocked/store.py:60-262 | every operation keeps: distinct ids, well-formed rows, and for each key an index entry equal to the ids of its rows in row order |
| `StoreModel.IndexedKeepsInv` | memory_unlocked/store.py:92-97 | indexing a record under a new id appends it and extends exactly its own index entry |
| `StoreModel.ForgetKeepsInv` | memory_unlocked/store.py:246-262 | forgetting removes an id from the dictionary and from its own index entry and leaves every other entry as it was |
| `StoreLaws.RunKeepsInv` | memory_unlocked/store.py:60-262 | the invariant holds after every run with fresh ids, and only drawn ids are ever stored |
| `StoreLaws.IndexedScope` | memory_unlocked/store.py:140-143 | although keys collide, index lookup plus the namespace re-check gives exactly the rows of the namespace, in order |
| `StoreLaws.QueryIsScan` | memory_unlocked/store.py:119-174 | a query is refused exactly for a bad thread, or a bad mode over a non-empty namespace; otherwise it equals the order-preserving filter of all rows and logs one recall with the size before text matching |
| `StoreLaws.QueryNeverLeaks` | memory_unlocked/store.py:119-174 | every answer is a stored row of the asked namespace, project-wide or of the asked thread |
| `QueryLaws.QueryAnswersExactly` | memory_unlocked/store.py:108-182 | a query with an acceptable thread and mode answers every stored memory that is of the namespace, shown by the mode, of an allowed status, not expired and holding the text, and no other, in stored order; every condition is stated on the fields |
| `QueryLaws.RefusedExactly` | memory_unlocked/store.py:144-148 | it is refused if and only if its thread is a wildcard, or its mode is unknown, or exact without a thread, while the namespace holds a memory |
| `QueryLaws.OwnThreadIsShown` | memory_unlocked/store.py:119-174 | without a mode and a text every stored memory of the namespace and of the own thread or the project, of an allowed status and not expired, is in the reply |
| `QueryLaws.RecallIsLogged` | memory_unlocked/store.py:162-171 | an answered query logs one recall, with the number of memories wanted whatever they say, and changes nothing else |
| `QueryLaws.RecallsHideSecrets` | memory_unlocked/store.py:162-171 | in every run no recall event quotes a query text that matches a secret pattern |
| `StoreLaws.OthersUntouched` | memory_unlocked/store.py:60-262 | an operation leaves every memory but its own as it was and in the same order; a query leaves all |
| `StoreLaws.ChangeIsRecorded` | memory_unlocked/store.py:198-244 | a lifecycle change sets one field and the update time of its memory and logs exactly the old and the new value |
| `StoreLaws.StatusSetExactly` | memory_unlocked/store.py:198-215 | a change of status refuses an unknown status, then an unknown id, without effect, and otherwise replaces that memory where it stands, answers it, rewrites it on disk and logs the change |
| `StoreLaws.ConfidenceSetExactly` | memory_unlocked/store.py:229-244 | the same of a change of confidence, refused outside 0 to 1 |
| `StoreLaws.ForgottenExactly` | memory_unlocked/store.py:246-262 | forgetting says whether the memory existed; if so it leaves its place, is erased from the disk, and that is logged |
| `StoreLaws.AddedAndForgotten` | memory_unlocked/store.py:60-262 | an accepted memory is stored last under its new id with the gate's content, a denied one is not stored, a forgotten one is gone |
| `StoreLaws.AuditDeterminesStatus` | memory_unlocked/store.py:60-90 | after every run, folding the write, status and forget events gives exactly the live ids with their statuses, and writes minus forgets is the number of memories |
| `StoreLaws.DoKeepsAudit` | memory_unlocked/store.py:198-262 | each operation keeps the agreement between audit log and live map |
| `StoreLaws.EventsAppendOnly` | memory_unlocked/store.py:104-106 | the events of a run are a prefix of the events of every longer run |
| `Journal.ReopenRestores` | memory_unlocked/persistence.py:65-140 | from an empty directory, after every run, replaying the log gives the same rows in the same order, the same index (missing equals empty) and the same events |
| `Sessions.ImportIsLegal` | memory_unlocked/store.py:288-317 | continuing a legal run by an import with fresh ids is again a legal run, so every result about runs covers imports |
| `Sessions.SessionIsRun` | memory_unlocked/store.py:60-317 | a session of operations and imports, each import running its own loop, reaches the state and makes the hook calls of one run of operations |
| `Sessions.SessionReopens` | memory_unlocked/persistence.py:65-140 | after every session, imports anywhere in it, the store satisfies its invariant and replaying its log rebuilds it exactly |
| `Sessions.SessionReopensTable` | memory_unlocked/sqlite_store.py:102-200 | after every session the reloaded table holds the live memories but for empty update times, and is the live store if and only if every memory has an update time or no creation time |
| `Sessions.SessionCut` | memory_unlocked/persistence.py:65-115 | a memory log cut anywhere in a session, in the middle of an import included, replays to a state the store went through |
| `Sessions.SessionAudited` | memory_unlocked/store.py:60-317 | after every session folding the audit log gives the live ids with their statuses |
| `Journal.StepSynced` | memory_unlocked/persistence.py:119-140 | one operation on any store in step with files that are empty or end in a newline leaves both in step, and the files so ended |
| `Journal.CutReplaysEarlierState` | memory_unlocked/persistence.py:65-115 | a memory log cut after any number of complete lines, with or without an undecodable line behind, and whether or not its last newline was written, replays to the memories, order and index of an earlier point of the same run |
| `Crashes.ReloadIff` | memory_unlocked/persistence.py:65-140 | a store opened on any files without a repeated birth goes on by any legal run: the next reload gives its memories if and only if nothing was written behind a line without a newline, or the later lines heal the loss of that line and the first one behind it; and its events if and only if none was written behind such a line |
| `Crashes.AppendedLines` | memory_unlocked/persistence.py:134-140 | what is written behind a line without a newline joins it to one undecodable line, so exactly the last old line and the first new one of each file are lost |
| `Crashes.WholeFilesReload` | memory_unlocked/persistence.py:65-140 | files that are empty or end in a newline, or to which nothing is written, reload to the live store |
| `Crashes.TornEventsIff` | memory_unlocked/persistence.py:65-140 | behind an event log without its last newline the reload gives the live store if and only if no operation wrote anything |
| `Crashes.CutAndContinued` | memory_unlocked/persistence.py:65-140 | a run's logs cut anywhere and reopened give an earlier state of the run, and the same exact condition holds of whatever legal run follows |
| `Crashes.OneAddIsLost` | memory_unlocked/persistence.py:134-140 | the condition can fail: behind two torn lines an accepted add only ends those lines, so its memory and its event are gone at the next reload |
| `Crashes.ForgettingHeals` | memory_unlocked/persistence.py:134-140 | it can hold although a line is lost: after an add and a forget of the same memory the reload gives the same memories |
| `Losses.LossIff` | memory_unlocked/persistence.py:72-92 | for any log, losing lines in its middle leaves the replayed rows as they are if and only if every id they concern is written or erased again later or unchanged by them, and the living ids they bring to life are the first living ones that later lines write |
| `Restarts.LogRestartsUnseen` | memory_unlocked/persistence.py:51-140 | closing and reopening the log at any points of a run is not observable: files, replies and the final store are those of the run of all operations together |
| `Restarts.TableRestartsUnseenIff` | memory_unlocked/sqlite_store.py:60-200 | reopening the table is at no point observable if and only if at each reopening every memory has an update time or no creation time |
| `Restarts.TimedRestartsUnseen` | memory_unlocked/sqlite_store.py:119-175 | that is so whenever the clock was not empty at a change of status or confidence |
| `Journal.JunkSkipped` | memory_unlocked/persistence.py:100-115 | an undecodable line anywhere in a log changes nothing that is replayed |
| `Journal.CutEventsOfRun` | memory_unlocked/persistence.py:94-98 | the event log of every run, cut anywhere and with a torn line behind, replays to the events the run had logged up to there |
| `Journal.StepLogs` | memory_unlocked/persistence.py:119-140 | the hook calls of one operation log exactly the events that it adds to the store |
| `Journal.LoadIsValid` | memory_unlocked/persistence.py:65-98 | loading any log whatsoever, junk and foreign lines included, gives a store that satisfies the invariant |
| `Writers.TwoWritersMerge` | memory_unlocked/persistence.py:72-92 | for every line-wise interleaving of two writers with disjoint fresh ids, reopening gives both live maps, nothing else, each writer's rows in its own order |
| `Writers.EventsMerge` | memory_unlocked/persistence.py:94-98 | for every interleaving of two event logs, the reloaded events are an interleaving of the events of both, each writer's in its own order |
| `Table.RowRoundTrip` | memory_unlocked/sqlite_store.py:119-175 | a memory written as a table row is always readable, and read back unchanged if and only if its update time is not empty or its creation time is empty too |
| `Table.ReopenRestores` | memory_unlocked/sqlite_store.py:102-200 | after every run, reloading the table by rowid gives the live memories in order, each as it is read back, and the live events; it gives the live store if and only if every memory has an update time or no creation time, although deleting the last row lets its rowid be used again |
| `Table.TimedRunsSettle` | memory_unlocked/sqlite_store.py:119-175 | that condition holds after every run in which the clock was not empty at a change of status or confidence |
| `Table.LoadRestores` | memory_unlocked/sqlite_store.py:102-117 | opening a table in step with any live store gives that store again, in step, if and only if the condition holds |
| `Table.LoadIsValid` | memory_unlocked/sqlite_store.py:102-117 | any table with a key for every row opens to a store that satisfies the invariant, unreadable rows skipped |
| `Table.BackendsAgree` | memory_unlocked/sqlite_store.py:102-200 | after every run log and table reload to equal events, and to equal memories in equal order with equal indexes if and only if every live memory has an update time or no creation time |
| `Exchange.ImportIsRun` | memory_unlocked/store.py:288-317 | importing equals a run of adds of the readable records, counts imported plus rejected as the number of records, and never bypasses the gate |
| `ImportLaws.ImportExactly` | memory_unlocked/store.py:288-317 | of any records, readable or not, an import takes in exactly those that can be read and pass every check of the gate, in their order, behind what is stored, with their contents and status, and counts all others as rejected |
| `Exchange.ImportReadmits` | memory_unlocked/store.py:288-317 | in every mode, importing exported rows appends, in order and under new ids and times, exactly the gate's version of those rows that it lets in, counts them, and rejects the rest |
| `Exchange.RoundTripIff` | memory_unlocked/store.py:272-317 | for every run and in every mode, exporting the store and importing it into an empty one rejects nothing and gives the same memories but for ids and times if and only if the gate, met again, leaves each stored memory alone |
| `Exchange.ExportImportRoundTrip` | memory_unlocked/store.py:272-317 | outside redact mode it does so for every run |
| `Exchange.RedactRoundTripIff` | memory_unlocked/policy.py:141-183 | in redact mode it does so if and only if every stored memory, placeholders included, is within the limits, shows no secret where secrets are scanned, and is left alone by redacting it once more |
| `Exchange.RedactionBreaksRoundTrip` | memory_unlocked/store.py:272-317 | the condition can fail: a run of one add, whose title holds an address, is exported and cannot be imported again |
| `Isolation.StepIsolated` | memory_unlocked/store.py:60-262 | one operation acts on what a scope sees as it would act on those rows alone, or not at all |
| `Isolation.PurgedRunLooksTheSame` | memory_unlocked/store.py:60-262 | for every run, what a scope sees is what remains when all operations on other namespaces and sibling threads are removed |
| `Isolation.RepliesAlike` | memory_unlocked/store.py:140-174 | stores that show a scope equal rows reply equally, except that a bad thread mode is refused only where the namespace holds some row |
| `LiveStore.MemoryStore.Add` | memory_unlocked/store.py:60-90 | outside redact mode the added object itself is stored, in redact mode a new one, and an object that is not stored keeps its value; dictionary, index, hook calls and log become what the model says, and the disk stays in step; it is stored if and only if its old value passes every check of the gate |
| `LiveStore.MemoryStore.SetStatus` | memory_unlocked/store.py:198-215 | changes the object stored under the id in place and no other, rewrites it on disk and logs old and new status; refuses unknown statuses and ids without any effect |
| `LiveStore.MemoryStore.SetConfidence` | memory_unlocked/store.py:229-244 | changes the object stored under the id in place and no other, rewrites it on disk and logs; refuses values outside 0 to 1 and unknown ids without any effect |
| `LiveStore.MemoryStore.Forget` | memory_unlocked/store.py:246-262 | removes the object, its index entry and its durable copy, and says whether it existed |
| `LiveStore.MemoryStore.Query` | memory_unlocked/store.py:119-174 | returns the objects the dictionary holds whose values the model answers (which these are: QueryLaws.QueryAnswersExactly), and changes nothing but the event log |
| `LiveStore.MemoryStore.ImportMemories` | memory_unlocked/store.py:288-317 | the import loop over live objects equals the model's import, hook calls included, and keeps the disk in step |
| `LiveStore.MemoryStore.Index` | memory_unlocked/store.py:92-97 | puts an object into dictionary and index as the model's indexing does |
| `LiveStore.MemoryStore.OpenLog` | memory_unlocked/persistence.py:51-98 | opening any two log files gives a valid store with the replayed state, whose used ids are those born in the log; it is in step with files that are empty or end in a newline, if no id was ever born twice |
| `LiveStore.MemoryStore.OpenTable` | memory_unlocked/sqlite_store.py:60-117 | opening any table with a key for every row gives a valid store with what can be read, whose used ids are the keys; a table left by a store restores it, in step, if and only if its memories have update times or no creation times |
| `LiveStore.Replay` | memory_unlocked/persistence.py:72-87 | the replay loop keeps the last write of each living id and the births in order |
| `LiveStore.MemoryStore.StepFacts` | memory_unlocked/store.py:60-262 | any operation on a live store keeps the invariant, and keeps a disk in step that is in step |
| `Corpus.CountFrequencies` | memory_unlocked/ranking.py:74-80 | the counting loops give each token the number of documents whose token set holds it |
| `Corpus.FrequenciesPermuted` | memory_unlocked/ranking.py:74-80 | document frequencies do not depend on document order |
| `Corpus.IdfAtLeastOne` | memory_unlocked/bm25.py:87-92 | the smoothed inverse document frequency is at least 1 when the frequency is at most the corpus size |
| `ScoreLaws.RarerWeighsMore` | memory_unlocked/bm25.py:87-92 | with a growing logarithm a rarer term weighs more, and one that every document holds weighs 1 |
| `ScoreLaws.TitleCountsTwice` | memory_unlocked/bm25.py:48-66 | a title token counts twice and a body token once |
| `ScoreLaws.PenaltyIs` | memory_unlocked/bm25.py:94-110 | the length penalty is 0.3 for no length and 1.2 at the average, in proportion to the length |
| `ScoreLaws.AverageOccurrence` | memory_unlocked/bm25.py:94-110 | one occurrence in a document of average length earns the weight of its term |
| `ScoreLaws.LongerEarnsLess` | memory_unlocked/bm25.py:94-110 | of two documents holding a term equally often the longer earns less for it |
| `ScoreLaws.RarerEarnsMore` | memory_unlocked/bm25.py:94-110 | of two terms that occur as often the weightier earns more |
| `ScoreLaws.OccurrencesSaturate` | memory_unlocked/ranking.py:125-139 | in the classic score a held term adds at least half its weight and less than all of it, the more the more often it occurs; one not held adds nothing |
| `ScoreLaws.OneMoreTerm` | memory_unlocked/ranking.py:141-143 | each query token that stands inside some tag adds one to the overlap |
| `ScoreLaws.EntryCounts` | memory_unlocked/vector.py:40-52 | before normalisation an entry is the number of positive tokens of its bucket less that of the negative ones |
| `ScoreLaws.CosineLaws` | memory_unlocked/vector.py:55-64 | cosine similarity is symmetric, 1 of a vector that is not zero with itself, and the dot product of unit vectors |
| `Bm25.BM25Index.constructor` | memory_unlocked/bm25.py:73-85 | the constructor's loops compute size, average length and document frequencies of the given documents |
| `Bm25.BM25Index.ScoreDocument` | memory_unlocked/bm25.py:94-110 | the counting and summing loops compute the BM25 formula |
| `Bm25.ScoreBounds` | memory_unlocked/bm25.py:94-110 | a score lies between 0 and 2.2 times the summed idf of the query terms |
| `Bm25.PositiveIffShared` | memory_unlocked/bm25.py:94-110 | a score is positive if and only if a query term occurs in the document |
| `Bm25.ScoreRisesWithFrequency` | memory_unlocked/bm25.py:94-110 | at equal length a document in which every query term occurs at least as often, and some more often, scores strictly higher |
| `Bm25.WeightAtLeastOne` | memory_unlocked/bm25.py:81-92 | the frequency table counts documents, so every term weighs at least 1 |
| `Bm25.RankPermuted` | memory_unlocked/bm25.py:112-120 | the ranking does not depend on the order in which documents were given |
| `Vector.Embed` | memory_unlocked/vector.py:40-52 | the buffer loop and the normalisation compute the embedding |
| `Vector.EmbeddingIsUnitOrZero` | memory_unlocked/vector.py:40-52 | every embedding has squared norm 1 or is the zero vector |
| `Vector.CauchySchwarz` | memory_unlocked/vector.py:55-64 | the squared dot product is at most the product of the squared norms |
| `Vector.CosineBounded` | memory_unlocked/vector.py:55-64 | cosine similarity lies between -1 and 1 |
| `Fusion.ReciprocalRankFusion` | memory_unlocked/fusion.py:37-69 | raises if and only if lengths differ or some ranked id is unauthorised, naming exactly those ids; otherwise returns the fused scores |
| `Fusion.FuseIsFormula` | memory_unlocked/fusion.py:65-69 | the accumulating loop gives exactly the ranked ids, each with the sum over rankings of its rank shares |
| `Fusion.RankSumAt` | memory_unlocked/fusion.py:65-69 | in a duplicate-free ranking the id at position p earns weight / (k + p), an absent id nothing |
| `Fusion.FusionConserves` | memory_unlocked/fusion.py:65-69 | all fused scores together total the sum over rankings of weight times 1/(k+1) + ... + 1/(k+n) |
| `Fusion.FusionDominance` | memory_unlocked/fusion.py:65-69 | with positive weights an id ahead of another in every ranking has a strictly higher fused score |
| `Ranking.ComputeLexical` | memory_unlocked/ranking.py:125-139 | the counting and summing loops compute the saturated lexical score |
| `Ranking.RankPermuted` | memory_unlocked/ranking.py:146-159 | with distinct ids the classic ranking does not depend on input order |
| `Retrieval.RankAuthorized` | memory_unlocked/retrieval.py:106-152 | the pipeline of index, vectors, fusion and boosts returns the specified ranking, and fusion never raises in it |
| `Retrieval.CollectCandidates` | memory_unlocked/retrieval.py:137-152 | the candidate loop keeps the ids with evidence, looks each up in the dictionary, which holds the last memory of an id, and sorts by relevance plus boost, then age, then id |
| `Retrieval.RankedAreAuthorized` | memory_unlocked/retrieval.py:60-135 | both rankings hold ids of given candidates only |
| `RetrievalLaws.RetrievalPermuted` | memory_unlocked/retrieval.py:106-152 | in every mode, permuting candidates with distinct ids never changes the output sequence |
| `RetrievalLaws.LexicalExact` | memory_unlocked/retrieval.py:106-152 | lexical mode returns exactly the candidates that share a title or body token with the query, each once |
| `RetrievalLaws.VectorExact` | memory_unlocked/retrieval.py:75-152 | vector mode returns exactly the candidates whose cosine exceeds the gate, each once |
| `RetrievalLaws.HybridExact` | memory_unlocked/retrieval.py:106-152 | hybrid mode returns exactly the candidates that share a token or exceed the gate, each once |
| `RetrievalLaws.HybridDominance` | memory_unlocked/retrieval.py:88-152 | in hybrid mode a result ahead in both rankings, no worse in status and confidence, and more recent, comes first |
| `RetrievalLaws.ClassicDominance` | memory_unlocked/ranking.py:108-159 | in classic mode, for non-negative weights, a candidate no worse in confidence, status, recency, lexical score and tag overlap, and strictly better in one of them with a positive weight, comes first |
| `OrderLaws.ClassicOrder` | memory_unlocked/ranking.py:108-159 | in classic mode what comes first has the higher weighted sum of confidence, status, recency, lexical score and tag overlap, or the same and is older, or as old under a smaller id |
| `OrderLaws.ResultsInOrder` | memory_unlocked/retrieval.py:88-152 | in the other modes what comes first has the higher relevance (BM25, cosine, or weighted reciprocal ranks) plus 0.20 for an active status, 0.08 of its confidence and 0.12 of its recency, or the same and is older |
| `OrderLaws.RecencyByAge` | memory_unlocked/retrieval.py:95-103 | the recency of the i-th oldest of n candidates is i / (n - 1), and 1 of a single one |
| `OrderLaws.ResultIsEvident` | memory_unlocked/retrieval.py:106-152 | every result shares a token with the query or has a cosine above the gate, as its mode asks |
| `Grouping.Dedupe` | memory_unlocked/ranking.py:174-185 | the greedy loop computes the order-preserving removal |
| `Grouping.DedupeIsMaximal` | memory_unlocked/ranking.py:174-185 | kept memories are pairwise below the threshold, and every dropped one is at or above it with a kept one |
| `Grouping.DroppedHasEarlierKept` | memory_unlocked/ranking.py:174-185 | every position is kept itself or like an earlier kept one |
| `Grouping.FindDuplicateGroups` | memory_unlocked/ranking.py:188-208 | the nested clustering loops with their assigned-set return the clusters of more than one member |
| `Grouping.LeaderListAssigns` | memory_unlocked/ranking.py:188-208 | each member is like its leader, which comes no later and leads itself, and unlike every earlier leader |
| `Grouping.ClustersPartition` | memory_unlocked/ranking.py:188-208 | groups and left-over singletons partition the input |
| `Grouping.ClusterHeadsAreKept` | memory_unlocked/ranking.py:174-208 | for symmetric likeness the first members of groups and singletons, in order, are exactly what greedy removal keeps |
| `Grouping.MemoryGroupsAgree` | memory_unlocked/ranking.py:162-208 | for memories and every Jaccard threshold, grouping and greedy removal agree |
| `Assembler.SelectedPermuted` | memory_unlocked/assembler.py:75-90 | filter, removal of near-duplicates and cap also do not depend on candidate order, in any mode |
| `Assembler.ClassicExact` | memory_unlocked/assembler.py:75-97 | classic selection before the cap keeps exactly the candidates with a query token in the text or inside a tag, and all of them for a query without tokens |
| `Assembler.SelectionLaws` | memory_unlocked/assembler.py:85-90 | the selection only holds ranked memories, respects the cap, and with removal on has no two memories at or above the threshold (which memories these are: SelectionLaws.SelectedByPosition) |
| `SelectionLaws.SelectedByPosition` | memory_unlocked/assembler.py:75-90 | position by position: a ranked memory is kept unless removal is on and it is at or above the threshold with one kept before it; of the kept the first are selected, up to the cap |
| `SelectionLaws.SelectedAreTheBest` | memory_unlocked/assembler.py:85-90 | selected memories stand in ranking order, and any other ranked memory is at or above the threshold with a selected one ranked before it, or ranked behind every selected one while exactly the cap is selected |
| `SelectionLaws.JaccardIsRatio` | memory_unlocked/ranking.py:162-171 | likeness is the number of common tokens over that of all tokens |
| `OrderLaws.ClassicRankedOrder` | memory_unlocked/assembler.py:75-97 | what classic selection chooses from is ordered like the ranking |
| `Assembler.RenderWithin` | memory_unlocked/assembler.py:110-126 | the greedy loop renders the longest prefix of the blocks that fits both budgets |
| `Assembler.Assemble` | memory_unlocked/assembler.py:99-127 | the context is empty for no memories or a header over budget, and else the stripped block of that prefix |
| `Assembler.TrueBounds` | memory_unlocked/assembler.py:110-127 | with k rendered blocks the token estimate is at most the budget plus k/4 rounded up, and the length at most header, character budget and k together |
| `Assembler.BudgetIff` | memory_unlocked/assembler.py:110-127 | the estimate stays within the token budget if and only if header, rendered blocks and the newlines between them, less the white space these end in, are at most four times the budget in characters |
| `Assembler.MemoryBudgetIff` | memory_unlocked/assembler.py:110-127 | for memories as they are rendered, with k blocks: if and only if header and blocks leave room for k characters in four times the budget |
| `Overshoot.BoundAttained` | memory_unlocked/assembler.py:60-127 | for every k, mode and ranking, k distinct well-formed memories are all selected and rendered in a budget that header and blocks fill exactly, and the context exceeds it by k/4 rounded up |
| `Overshoot.RecallOvershoots` | memory_unlocked/assembler.py:60-127 | so does recall from every store that shows exactly these memories |
| `Overshoot.RunOvershoots` | memory_unlocked/store.py:60-90 | adding the k memories to an empty store, under a policy that permits them, is a legal run whose store does so |
| `Budget.RenderOne` | memory_unlocked/assembler.py:115-126 | a line joins the rendered prefix if and only if it fits what is left of both budgets, and otherwise no longer prefix fits |
| `Budget.RenderedUpTo` | memory_unlocked/assembler.py:115-126 | lines are rendered up to the first that does not fit what the lines before it leave of either budget |
| `RecallLaws.ContextIsGreedy` | memory_unlocked/assembler.py:99-127 | the context is empty for no memories or a header over budget, and otherwise header and blocks up to the first that does not fit |
| `Budget.BlockLength` | memory_unlocked/assembler.py:127 | the block is as long as its lines and the newlines between them, less the white space that they end in, which is found line by line from the end |
| `Budget.WithinBudgetIff` | memory_unlocked/ranking.py:46-50 | for any lines: their joined block is within a token budget if and only if their lengths and the newlines that remain between them are at most four times the budget |
| `Render.SanitizeLines` | memory_unlocked/render.py:64-79 | the line loop computes the cleaned text: control characters dropped, lines stripped, forged lines labelled, instructions marked |
| `Render.SanitizedLines` | memory_unlocked/render.py:64-79 | cleaned text holds no control character and no line break but the newline |
| `Render.ClampKeepsLimit` | memory_unlocked/render.py:57-61 | a text within its limit is left alone, and a longer one is cut to the limit, ellipsis included |
| `Render.BodyIsFenced` | memory_unlocked/render.py:82-91 | however a memory is written, what follows the title line of its block is the lines of its cleaned body, each behind the fence, and its source |
| `Render.RenderedEnds` | memory_unlocked/render.py:82-91 | every block ends in the closing parenthesis of its source, so stripping the context removes nothing from it |
| `RenderLaws.CleanedLineByLine` | memory_unlocked/render.py:64-79 | a text of any lines is cleaned line by line, rejoined and stripped |
| `RenderLaws.CleanedLine` | memory_unlocked/render.py:64-79 | a line loses the white space at its end; one that forges structure also loses its hashes and the white space behind them and stands behind the label; nothing else is lost |
| `RenderLaws.PlainTextIsKept` | memory_unlocked/render.py:64-79 | a text without control characters, forged lines, marked instructions and white space at line ends is kept as it is |
| `RenderLaws.ClampedText` | memory_unlocked/render.py:57-61 | a text that is too long keeps what stands before the limit, less white space, and an ellipsis |
| `Recall.ContextAssembler.Select` | memory_unlocked/assembler.py:60-90 | selecting over a running store gives the model's selection of the model's query answer (which it is: SelectionLaws.SelectedAreTheBest, RecallLaws.RecallIsComplete) |
| `Recall.ContextAssembler.Build` | memory_unlocked/ops.py:129-147 | matches and context over a running store equal the model of recall |
| `Recall.RecallDependsOnScope` | memory_unlocked/assembler.py:60-127 | stores that agree on the rows a thread of a namespace sees give the same matches and the same context in every mode |
| `Recall.RecallAfterPurge` | memory_unlocked/assembler.py:60-127 | recall after any run equals recall after the run without everything outside the scope |
| `Recall.RecalledAreInScope` | memory_unlocked/assembler.py:60-90 | everything recalled is stored in the namespace, visible to the thread, of a configured status and not expired |
| `RecallLaws.RecallIsComplete` | memory_unlocked/assembler.py:60-90 | every stored memory in scope, of a configured status, not expired and pertinent to the query is recalled, unless a recalled one is at or above the threshold with it or the cap is reached |
| `RecallLaws.RankedExactly` | memory_unlocked/assembler.py:69-97 | the ranking holds exactly the candidates that are pertinent in the mode |
| `RecallLaws.ServiceRunsWith` | memory_unlocked/ops.py:113-126 | a service call runs with eight memories, 4000 characters, removal of near-duplicates, active memories only and the classic mode, unless it asks otherwise |
| `Recall.ServiceAnswers` | memory_unlocked/ops.py:113-147 | a service request with acceptable thread and mode is always answered, with active memories of the namespace that are project-wide or in the asked thread |
| `Extraction.ExtractRelations` | memory_unlocked/graph.py:387-440 | the clause loop with its carried subject and its cap gives the declared edges of the processed clauses (which these are: ExtractionLaws.RelationsExactly) |
| `Extraction.ExtractClause` | memory_unlocked/graph.py:398-436 | the rule loop lets the first matching rule decide a clause and updates the carried subject only for a usable capture |
| `Extraction.CarriedIsNearest` | memory_unlocked/graph.py:396-418 | the carried subject is that of the nearest earlier clause naming one; none is carried if and only if no earlier clause names one |
| `Extraction.RelationsLaws` | memory_unlocked/graph.py:387-440 | every edge comes from the first matching rule of its clause and binds to the captured or nearest subject; endpoints are usable and only sensitive writes loop (and none is missing: ExtractionLaws.RelationsExactly) |
| `ExtractionLaws.RelationsExactly` | memory_unlocked/graph.py:387-440 | the edges are exactly what the objects of the processed clauses yield, one each, clause by clause and object by object: the target is the usable canonical object, the subject the captured or else the nearest earlier one, a loop only for sensitive writes; processed are all clauses, or those up to the first that reaches 24 edges |
| `ExtractionLaws.UsableIff` | memory_unlocked/graph.py:361-376 | a name is usable if and only if it has 1 to 80 characters, at most four words, and is no stop word, secret or personal data |
| `ExtractionLaws.KindOfShape` | memory_unlocked/graph.py:228-241 | what a name looks like decides its kind before its role does: channel, URL, provider, repository |
| `ExtractionLaws.KindOfRole` | memory_unlocked/graph.py:242-258 | any other name has the kind that its role in each relation of the vocabulary gives it |
| `Extraction.WithoutSubject` | memory_unlocked/graph.py:410-436 | before any subject is named only sensitive-write self-flags appear |
| `Extraction.EdgeCount` | memory_unlocked/graph.py:422-439 | the cap of 24 is exceeded by at most the objects of the last processed clause, and clauses are left over only once it is reached |
| `Extraction.RelationsInVocabulary` | memory_unlocked/graph.py:269-335 | with the shipped rule table every edge has a relation of the vocabulary |
| `Extraction.InferKind` | memory_unlocked/graph.py:228-258 | every inferred kind is one of the fixed entity kinds |
| `SemanticGraph.ExtractGraph` | memory_unlocked/graph.py:491-561 | the accumulating loops with their three seen-sets give, of everything in-scope memories contribute, the first of each key |
| `SemanticGraph.ScanEntities` | memory_unlocked/graph.py:443-469 | the three scan passes with one seen-set give the first usable hit of each name |
| `SemanticGraph.Builder.AddMemory` | memory_unlocked/graph.py:504-559 | one memory adds its relations and endpoints, or else its scanned entities and their pairs |
| `GraphLaws.GraphIsDistinct` | memory_unlocked/graph.py:500-559 | triples, entity keys and co-occurring pairs are each distinct |
| `GraphLaws.GraphGrows` | memory_unlocked/graph.py:504-559 | the graph of more memories extends the graph of fewer: entities, relations and pairs stay prefixes |
| `GraphLaws.OutsidersChangeNothing` | memory_unlocked/graph.py:505-506 | a memory of another namespace changes nothing wherever it stands |
| `GraphLaws.TriplesExact` | memory_unlocked/graph.py:523-536 | a triple is in the graph if and only if an in-scope memory asserts it |
| `GraphContents.RelationsAreFirsts` | memory_unlocked/graph.py:504-536 | the relations are those stated by the memories of the namespace, memory by memory and edge by edge, with the provenance and 0.85 of the confidence of that memory, except those whose triple was stated before |
| `GraphContents.EntitiesAreFirsts` | memory_unlocked/graph.py:513-544 | the entities are the subjects and targets so stated, or what the scan recognises in memories that state nothing, in that order, except names of a kind named before |
| `GraphContents.ScannedExactly` | memory_unlocked/graph.py:443-469 | the scan finds the usable channels, then tokens with a dot that are URLs, then words that are providers under their alias, except names found before |
| `GraphContents.CompanionsAre` | memory_unlocked/graph.py:538-559 | a memory that states nothing joins each two of what the scan recognises in it, in order; one that states a relation joins nothing |
| `GraphContents.CoOccurrencesAreFirsts` | memory_unlocked/graph.py:538-559 | the co-occurrences are the pairs so joined, memory by memory, except pairs joined before |
| `GraphLaws.FirstAssertionKept` | memory_unlocked/graph.py:534-536 | of equal triples the first assertion is kept with its provenance |
| `GraphLaws.EndpointsRegistered` | memory_unlocked/graph.py:523-532 | both endpoints of every relation are registered entities of the kinds it gives them |
| `GraphLaws.CoOccurrencesLaws` | memory_unlocked/graph.py:538-559 | a co-occurrence pairs two different registered names scanned in an in-scope memory without relations |
| `GraphLaws.CountTriples` | memory_unlocked/ops.py:492-502 | the counting loop reports exactly the triples that occur more than once |
| `GraphLaws.NeverDuplicate` | memory_unlocked/ops.py:492-502 | an extracted graph never causes a duplicate warning |
| `GraphLaws.TemporalReport` | memory_unlocked/ops.py:297-320 | the grouping and row loops compute the temporal rows with their handles, validity and confidence |
| `GraphLaws.EveryRowIsCurrent` | memory_unlocked/ops.py:297-320 | for an extracted graph the report is its relations in order, with handles counting from 1, all current and without an end, whether or not only current ones are asked for |
| `GraphLaws.CurrentRowReads` | memory_unlocked/ops.py:297-320 | such a row names the relation, is valid from the creation of its memory on, and has no end |
| `GraphContext.BuildContext` | memory_unlocked/ops.py:522-556 | the nested emitting loops render the longest prefix, within the budget, of relations in vocabulary order followed by co-occurrences |
| `GraphContext.GroupingReorders` | memory_unlocked/ops.py:536-548 | grouping by vocabulary loses and repeats no relation of an extracted graph |
| `GraphContext.LinesFollowGroups` | memory_unlocked/ops.py:540-548 | the relation lines are those of the stably grouped relations in that order |
| `GraphContents.ContextOrder` | memory_unlocked/ops.py:536-541 | relations stand group by group in the order of the vocabulary, and within a group as in the graph |
| `GraphContents.ContextLines` | memory_unlocked/ops.py:540-552 | the lines are those of the grouped relations and then those of the co-occurrences |
| `GraphContents.ContextIsGreedy` | memory_unlocked/ops.py:522-556 | a graph context is its header and lines up to the first that does not fit, and nothing if the first does not |
| `GraphContext.TrueBound` | memory_unlocked/ops.py:526-559 | with k rendered lines the estimate exceeds the budget by at most k/4, rounded up |
| `GraphContext.HeaderMustFit` | memory_unlocked/ops.py:524-556 | a header over budget leaves no room for any line, so the context is empty |
| `GraphContext.BudgetIff` | memory_unlocked/ops.py:522-559 | the estimate stays within the budget if and only if nothing is rendered and the budget is not negative, or header, lines and newlines, less the white space at the end, are at most four times the budget in characters |
| `GraphContext.GraphBudgetIff` | memory_unlocked/ops.py:522-559 | for a graph whose names do not end in white space, with k rendered lines: if and only if header and lines leave room for k characters |
| `GraphContext.ExtractedExceeds` | memory_unlocked/ops.py:522-559 | an extracted graph of k relations whose header and lines need no rounding renders all of them in a budget they fill exactly, and exceeds it by k/4 rounded up |
| `GraphContext.StatedExceeds` | memory_unlocked/ops.py:522-559 | any k memories that state one relation each, no two the same, with whole lines, give a context that exceeds a budget they fill by k/4 rounded up |
| `GraphContext.BoundAttained` | memory_unlocked/ops.py:522-559 | for every k a graph value of k distinct relations does so |
| `Curator.Curate` | memory_unlocked/curator.py:82-188 | the emitting passes, the suppression, the sort and the truncation give the plan (what it holds: ProposalLaws.PlanIsDue) |
| `Curator.ProposeAbout` | memory_unlocked/curator.py:119-136 | one memory's proposals are those of the rules that apply, in rule order |
| `PairDetection.DetectionSymmetric` | memory_unlocked/dedupe.py:83-193 | duplicate and contradiction detection do not depend on which memory comes first |
| `PairDetection.PairsPermuted` | memory_unlocked/dedupe.py:100-193 | the pairs found do not depend on the order of the memories |
| `PairDetection.PairsExact` | memory_unlocked/dedupe.py:100-193 | a pair is reported if and only if an earlier and a later memory with ids are related by it |
| `PairDetection.FindDuplicatePairs` | memory_unlocked/dedupe.py:100-118 | the nested loops find the pairs at or above the threshold, judged unrounded, and sort them by rounded similarity, then ids |
| `PairDetection.FindContradictionPairs` | memory_unlocked/dedupe.py:154-193 | the nested loops find the pairs with enough common subject and opposite polarity and sort them by rounded overlap, ids and reason |
| `PairDetection.PairsInOrder` | memory_unlocked/dedupe.py:117-192 | reported pairs come with the most alike first, equally alike ones by their ids, negations before toggled words |
| `ProposalLaws.DuplicateIs` | memory_unlocked/dedupe.py:74-118 | two memories are a duplicate pair if and only if at least 0.85 of all their words stand in both, or neither has words; it is exact if the normalised texts are equal or at least 0.999 of the words are common |
| `ProposalLaws.ContradictionIs` | memory_unlocked/dedupe.py:121-193 | they are a contradiction if and only if both have a topic, at least half of it is common, and exactly one of them negates or they say the two words of an opposite pair |
| `CuratorLaws.EmittedOrigin` | memory_unlocked/curator.py:101-153 | every emitted proposal comes from a rule that applies to an in-scope memory, or from a detected pair of in-scope memories (and all of these are emitted: ProposalLaws.EmittedExactly) |
| `ProposalLaws.EmittedExactly` | memory_unlocked/curator.py:101-153 | a proposal is emitted if and only if a visible memory calls for it by itself, or two visible memories at two positions do, as duplicates or as a contradiction, each with its action, ids in order, reason, evidence and hash; stated from the memories |
| `ProposalLaws.OrderedExactly` | memory_unlocked/curator.py:155-174 | before truncation the plan holds exactly what is called for, unless it is about a memory flagged as a secret and no quarantine |
| `ProposalLaws.PlanIsDue` | memory_unlocked/curator.py:82-188 | a plan proposes only what is due, and all of it, unless as many as allowed are kept and each of them outranks what is not |
| `ProposalLaws.PlanOrder` | memory_unlocked/curator.py:168-174 | proposals stand by urgency, then by the name of their action, then by their hash |
| `ProposalLaws.ProposedOnce` | memory_unlocked/curator.py:101-176 | with distinct ids each proposal is made once |
| `ProposalLaws.PlanCounts` | memory_unlocked/curator.py:94-99 | a plan counts exactly the memories of the asked namespace that are of the project or of the asked thread |
| `CuratorLaws.RuleOrigin` | memory_unlocked/curator.py:119-136 | a proposal about one memory is emitted if and only if its rule applies to an in-scope memory with an id |
| `CuratorLaws.PlanPermuted` | memory_unlocked/curator.py:82-197 | with distinct ids, permuting the memories leaves the plan unchanged, unless two emitted proposals of one action collide in their truncated hash |
| `CuratorLaws.InjectiveNeverCollides` | memory_unlocked/curator.py:59-62 | a hash that tells actions and ids of a scope apart never collides |
| `CuratorLaws.SecretsSuppressOthers` | memory_unlocked/curator.py:155-166 | no surviving proposal but a quarantine mentions a memory flagged as a secret |
| `CuratorLaws.SecretsAreQuarantined` | memory_unlocked/curator.py:122-130 | every in-scope memory flagged as a secret is quarantined before truncation |
| `CuratorLaws.ProposalsInScope` | memory_unlocked/curator.py:93-176 | every proposal names only memories of the asked namespace and a visible thread |
| `CuratorLaws.TruncationKeepsTheBest` | memory_unlocked/curator.py:168-176 | truncation keeps a prefix in which nothing dropped outranks anything kept, and is reported if and only if something was dropped |
| `CuratorLaws.QuarantinesComeFirst` | memory_unlocked/curator.py:39-48 | suspected secrets stand before every other proposal, so truncation drops them last |

## Left out

- Command line, tool server, plugin and release script: transport over the same service calls.
- File system, flushing, JSON text, the SQL engine and schema migration: lines are appended atomically, one
  record per line, and a table insert takes the largest rowid plus one.
- A line torn inside a character of several bytes: reading such a file fails as a whole, because only JSON
  errors are caught. A line that decodes to something other than an object also ends the load; neither occurs
  in the model's logs.
- Foreign text as an open last line: an open line is one that `_append_jsonl` began, and a last line of blanks
  counts as ended, because stripping removes them.
- Wire records of wrong types (a number for a title): fields are absent, null or of the right type.
- Adding one object twice, which would give a stored object a new id: added objects are fresh.
- Export restricted to one namespace, and the events inside an export, which import ignores.
- The branch of import that restores a status: an accepted memory always keeps its status, so it never runs.
- Unicode lower-casing and accent stripping: `Text.Lower` changes ASCII letters only, and the normalisation
  of pair detection is a parameter.
- Rounding of scores and confidences: arithmetic is over `real`, and the rounding of pair similarities is any function.
- The contents of patterns, word tables and the alias map; the rule table's names and relations are modelled,
  its expressions are not. Canonical names are not claimed to be stable under a second pass.
- What the two expressions of rendering match: which lines forge structure, and how instructions are marked.
- Session summaries, dashboard, assets, profiles and ranking reasons: they would only add easy members.
- The noisy and weak graph warnings. The temporal report looks creation times up in the store by a further
  query; here they are a function of the memory id.
- The list of selected ids that the context service returns beside its text: it is not the list of rendered
  memories and nothing is claimed of it.
- The evidence and titles inside proposals are modelled; the plan's own hash and version fields are not.
- The error for vectors of different lengths: every embedding has the same length.
- Relevance deciding the hybrid order: fused scores are far smaller than the boosts, so only dominance is stated.
- RetrievalLaws.HybridDominance: asks to be ahead in both rankings, status, confidence and recency together, because boosts can outweigh any difference in rank.
- CuratorLaws.PlanPermuted: asks that emitted proposals of one action do not collide in the truncated hash, which a real hash meets only with high probability.
- LiveStore.MemoryStore.OpenTable: asks for a key in every row and a namespace in every event, because a row under an empty id would break the dictionary.
- Models.NormalizeTagLoop: lower-cases ASCII letters only, because Unicode case mapping is a table of its own.
- GraphContext.ExtractedExceeds: asks for an extracted graph of whole lines rather than exhibiting the memories, because which text states which relation is up to expressions that are parameters.
- GraphContext.BoundAttained: is about graph values, because names of more than 80 characters are not usable, so that memories state only finitely many relations.
- Overshoot.RunOvershoots: asks for a policy whose limits and patterns permit the memories used, as the one without limits does.
- Overshoot.BoundAttained: asks for limits and a fence divisible by four, as the defaults are, and expressions that leave the words used alone.
