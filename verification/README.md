# Verification of the agent service and its game-data pipeline

This project models the stateful core of a chat-agent service for an auto-battler game and of the
data pipeline behind it, and proves what that core keeps over whole runs.

* **Agent runs.** A user message and its run are two rows that many actors change through
  conditional updates. Each committed transaction is one step; any interleaving of steps is a run.
  The rows live in `AgentStore`, the steps and their invariant in `AgentLifecycle`, what each
  step does column by column in `AgentEffects`, whole-run properties in `AgentTraces`; `AgentRuntime` and `AgentSystem` add the one-slot queue, the single
  consumer and the bounded event history of one conversation.
* **Raw revisions and structured snapshots.** `RawStore` and `RawSync` model the append-only store
  of numbered raw revisions, `RawMeaning` what its files must
  say, `RawHistory` what runs of syncs keep. `Validation`, `Descriptions`, `TraitTables`, `TraitProperties`,
  `TierEncodings`, `Adapter` and `AdapterProperties` turn source records into a relational
  snapshot, `RecordMeaning` says which field becomes what. `JccStore`, `JccDatabase` and `Publication` import it in one transaction and publish it
  through a pointer per mode; `StoredRows` says which column holds what; `Loaders`, `TierLoader`, `GearLoader`
  and `RoundTrip` read it back.
  `Pipeline` joins both stores, `SnapshotPin` joins the snapshots with the agent's runs.
* **Search index.** `RagIndex` is the incremental indexer with its cached vectors, batches,
  per-document fallback and one pointer per mode.
* **Bounded algorithms.** `RateLimit`, `Summary`, `ToolLoop` and `TokenUsage`.

Assumptions that the model makes explicit: content hashes are an injective function of the canonical
payloads and of a document's content; the embedding provider is a function of model, dimension and
one text, and any of its calls may fail, as a function of the call; the chat model, the tools, the
moments at which cancellation is noticed and the events that cannot be delivered are arbitrary
functions; the clock never runs backwards; a transaction is atomic and a failing one restores the
whole state; ids of new rows are fresh.

Where the code does not keep what its surroundings rely on, the exact condition is stated beside a
concrete counterexample, and the whole-run results carry that condition.

* The directory filter of a version also selects another version's directories exactly when that
  version's base name continues its own with `-r` (`RawStore.ForeignMatchIff`,
  `RawHistory.OnlyOwnSelectedIff`). The store stays sound and publishing never collides even then,
  but revisions are numbered without gaps (`Pipeline.RevisionsNumberedIff`) and an unforced sync
  answers for its own version (`RawHistory.SkipAnswersOwnIff`) only under exact conditions;
  `RawHistory.HyphenatedVersionMisleads` breaks both, and versions without hyphens meet both
  (`Pipeline.PlainRuns`).
* The adapter checks neither that adventure ids differ nor that values fit their columns, so an
  accepted snapshot can fail to import (`Pipeline.StoredImportIff`, `Pipeline.RepeatedAdventureFails`).
* The advertised retry time can be up to a millisecond too short (`RateLimit.RetryPassesIff`,
  `RateLimit.RetryCanBeTooShort`).
* An assistant message does not imply a completed run (`AgentTraces.AnswerCompletesIffRunning`,
  `AgentTraces.AnswerWithoutCompletion`).
* A succeeded tool call can be told to the model as an error (`ToolLoop.Loop.AuditDisagreesIff`).

## Model

| member | source | states |
|---|---|---|
| `AgentLifecycle.StepKeepsInv` | app/conversations/repository.py:285-390 | every committed transaction, in any state, keeps the whole row invariant: run and message in lockstep, one run per message, dense message numbers, unique request ids, a finished run answered |
| `AgentLifecycle.PairUpdateKeepsInv` | app/agent/orchestrator.py:315-334 | two independently guarded updates of a pair stay in step whenever both guards accept the same shared statuses and write the same shared columns |
| `AgentLifecycle.StartKeepsInv` | app/agent/orchestrator.py:315-334 | the start transaction is such a pair update |
| `AgentLifecycle.EndKeepsInv` | app/agent/orchestrator.py:401-443 | failing or cancelling an execution is such a pair update |
| `AgentLifecycle.CancelCurrentKeepsInv` | app/agent/runtime.py:285-312 | the immediate cancel of the current run is such a pair update |
| `AgentLifecycle.CancelWaitingKeepsInv` | app/agent/runtime.py:314-332 | cancelling a waiting message is such a pair update |
| `AgentLifecycle.RequeueKeepsInv` | app/agent/runtime.py:261-283 | a restart requeue is such a pair update, although the two guards list different statuses |
| `AgentLifecycle.AskCancelKeepsInv` | app/conversations/service.py:193-213 | a cancel request is such a pair update |
| `AgentLifecycle.SupersedeKeepsInv` | app/agent/runtime.py:334-363 | superseding cancels exactly the waiting runs together with their messages and keeps the invariant |
| `AgentLifecycle.AnswerKeepsInv` | app/agent/orchestrator.py:350-393 | completing keeps the invariant, whether or not its guards let it write |
| `AgentEffects.StartEffect` | app/agent/orchestrator.py:315-334 | starting a queued pair makes both rows running from that time and clears the flag; in any other status nothing changes, and nothing else ever does |
| `AgentEffects.StreamEffect` | app/agent/orchestrator.py:336-348 | streaming replaces the output of a running run and touches nothing else |
| `AgentEffects.ResolveEffect` | app/agent/orchestrator.py:294-313 | resolving answers the pinned snapshot's row if it still has the pinned mode, else the mode's current row, and records it column by column on a running run without a pin |
| `AgentEffects.AnswerEffect` | app/agent/orchestrator.py:350-393 | completing stores one finished assistant message with the next number, a blank for an empty answer, and completes the pair exactly when it runs; an answer over 8000 characters changes nothing |
| `AgentEffects.EndEffect` | app/agent/orchestrator.py:401-443 | ending a queued, running or cancelling pair writes status, error, end, output and the reported counts, and the flag exactly when cancelled |
| `AgentEffects.CancelCurrentEffect` | app/agent/runtime.py:285-312 | the immediate cancel ends a queued, running or cancelling pair as cancelled, with flag, error and end |
| `AgentEffects.CancelWaitingEffect` | app/agent/runtime.py:314-332 | cancelling a queued or cancelling pair sets status and flag only, without error or end |
| `AgentEffects.RequeueEffect` | app/agent/runtime.py:261-283 | a restart requeue puts a running or cancelling pair back to queued with its flag cleared; pin, output, start and every other column and row stay |
| `AgentEffects.SupersedeEffect` | app/agent/runtime.py:334-363 | superseding cancels every queued run of the conversation but the newest message's, together with their messages, and no other row |
| `AgentEffects.AskCancelEffect` | app/conversations/service.py:193-213 | the owner's request marks an active pair cancelling; any other request changes nothing |
| `AgentEffects.ConversationEffects` | app/conversations/service.py:49-88 | creating, editing and archiving a conversation, column by column |
| `AgentEffects.PostEffect` | app/conversations/service.py:101-155 | a post by the owner to an open conversation, with a new request id and 1 to 8000 characters, inserts one queued user message with the next number; any other post inserts nothing |
| `AgentEffects.PostAnswer` | app/conversations/service.py:101-155 | what a post answers: not found, archived, the earlier message, a conflict, the new message or a constraint failure, each with its exact condition |
| `AgentEffects.AttachEffect` | app/conversations/service.py:158-174 | the first attachment of a message creates its run, queued and empty; a later one changes nothing |
| `AgentTraces.LockstepAlways` | app/agent/orchestrator.py:315-443 | in every state any interleaving reaches, a run and its message have the same status, error, start and end; the cancel flag holds exactly while cancelling or cancelled; no other run shares the message |
| `AgentTraces.NumberedOneToN` | app/conversations/repository.py:140-172 | user and assistant messages of a conversation carry exactly the numbers 1..n |
| `AgentTraces.RetryAnswer` | app/conversations/service.py:101-155 | a retry with a stored request id changes nothing; it returns the stored message exactly when content and effective mode agree, and a conflict otherwise |
| `AgentTraces.RetryAtAnyLaterTime` | app/conversations/service.py:120-129 | the same for a retry at any later point of any run, in terms of the first request |
| `AgentTraces.TerminalRowsFrozen` | app/conversations/repository.py:285-390 | once a run is completed, failed or cancelled, no later step changes any column of it or of its message |
| `AgentTraces.PinNeverChanges` | app/agent/orchestrator.py:294-313 | a recorded snapshot pin survives every later step |
| `AgentTraces.NoUserMessageAfterArchive` | app/conversations/service.py:101-114 | after archiving, the set of user messages of a conversation stays exactly the same |
| `AgentTraces.StartsBounded` | app/agent/runtime.py:261-283 | a run starts at most once more often than it was requeued after restarts |
| `AgentTraces.AnswerCompletesIffRunning` | app/agent/orchestrator.py:365-391 | an answer is stored by every completing transaction; it completes the run exactly when the run was still running |
| `AgentTraces.CompletionsHaveAnswers` | app/agent/orchestrator.py:388-391 | at every point there are at least as many stored answers as completed runs |
| `AgentTraces.AnswerWithoutCompletion` | app/agent/orchestrator.py:368-391 | the converse fails: a concrete reachable history ends with an answer and no completed run |
| `AgentStore.AgentStore.UpdateRunStatus` | app/conversations/repository.py:285-347 | updates the row exactly when its status is in the guard, absent columns kept |
| `AgentStore.AgentStore.UpdateMessageStatus` | app/conversations/repository.py:362-390 | the same for messages |
| `AgentStore.AgentStore.MarkRunning` | app/agent/orchestrator.py:315-334 | both updates or a rollback, keeping the invariant |
| `AgentStore.AgentStore.SaveStreaming` | app/agent/orchestrator.py:336-348 | writes streamed text only while running |
| `AgentStore.AgentStore.ResolveSnapshot` | app/agent/orchestrator.py:294-313 | answers the pinned snapshot's context, or the current one, which it records |
| `AgentStore.AgentStore.Complete` | app/agent/orchestrator.py:350-393 | both guarded updates and the assistant message, all in one transaction or, with unstorable content, not at all |
| `AgentStore.AgentStore.Finish` | app/agent/orchestrator.py:401-443 | the failing or cancelling transaction |
| `AgentStore.AgentStore.MarkCancelled` | app/agent/runtime.py:285-312 | the immediate cancel transaction |
| `AgentStore.AgentStore.CancelQueuedMessage` | app/agent/runtime.py:314-332 | cancels a waiting pair and reports whether anything changed |
| `AgentStore.AgentStore.RequeueRun` | app/agent/runtime.py:261-283 | the restart requeue |
| `AgentStore.AgentStore.CancelQueued` | app/agent/runtime.py:334-363 | the loop over waiting runs equals superseding them all at once, and reports exactly their pairs |
| `AgentStore.AgentStore.CreateMessage` | app/conversations/service.py:101-155 | every answer of the call: ownership, archive, idempotent retry, conflict, insert, failure |
| `AgentStore.AgentStore.EnsureRun` | app/conversations/service.py:158-174 | answers the message's only run, creating it at most once |
| `AgentStore.AgentStore.RequestCancel` | app/conversations/service.py:193-213 | marks the pair cancelling while active and reports not-found exactly when the caller has no such run |
| `AgentStore.AgentStore.ArchiveConversation` | app/conversations/service.py:84-88 | archives an owned conversation only |
| `AgentStore.AgentStore.UpdateConversation` | app/conversations/service.py:63-81 | edits an owned, unarchived conversation only |
| `AgentRuntime.ConversationRuntime.ReplaceQueued` | app/agent/runtime.py:122-128 | draining then putting leaves exactly the new item queued, the counter exact, and never overflows for any queue size |
| `AgentRuntime.ConversationRuntime.Get` | app/agent/runtime.py:214-216 | the consumer takes the only queued item |
| `AgentRuntime.ConversationRuntime.TaskDone` | app/agent/runtime.py:253-254 | releases the held item and its count |
| `AgentRuntime.ConversationRuntime.Publish` | app/agent/runtime.py:366-379 | numbers events 1, 2, ... and keeps exactly the last 100 |
| `AgentRuntime.ReplayIsSuffix` | app/agent/runtime.py:183-192 | in-memory replay is exactly the stretch of everything published after the cursor that is still kept |
| `AgentRuntime.ReplayIsComplete` | app/agent/runtime.py:183-192 | replay misses nothing after the cursor exactly while at most 100 events followed it |
| `AgentSystem.MoveKeepsWorld` | app/agent/runtime.py:102-129 | enqueues, the consumer, executions, API calls and restarts, in any order, keep queue, held item and live execution consistent with the rows |
| `AgentSystem.ConsumerDiscipline` | app/agent/runtime.py:214-254 | at every point of every run, of which only the moves' own guards are assumed: at most one item is queued, the unfinished count is queued plus held, executions of a conversation never overlap, and the live one runs the held pair |
| `AgentSystem.NewestIsOnlyQueued` | app/agent/runtime.py:102-129 | when an enqueue's supersede step commits, no other run of the conversation is queued |
| `AgentSystem.ExecutionStepsAreEnabled` | app/agent/orchestrator.py:62-127 | every transaction an execution commits carries a run with its own message |
| `AgentSystem.ConsumerHasItsMove` | app/agent/runtime.py:214-254 | in every state the consumer has its next move: it takes what is queued, skips or executes what it holds exactly by its status, and releases what has ended |
| `AgentSystem.EndedExecutionIsReleased` | app/agent/runtime.py:242-254 | an execution that ends leaves its item to be released, which frees the consumer and its count and touches no row |
| `AgentSystem.InterruptedPairResumes` | app/agent/runtime.py:255-283 | a pair interrupted by a restart can be requeued, enqueued, taken and started, in this order from any state, and then runs again in the only live execution |
| `RawStore.NamesAndRevisions` | app/jcc_data/snapshot_reader.py:175-184 | directory name and revision are inverse, for every base name and revision |
| `RawStore.BaseIsInjective` | app/jcc_data/snapshot_reader.py:132-136 | a base name determines version and season |
| `RawStore.ForeignMatchIff` | scripts/sync_jcc_data.py:193-199 | the directory filter of a version selects a revision of another version exactly when the other base name continues its own with -r |
| `RawStore.RevisionNameIsInjective` | scripts/sync_jcc_data.py:289-292 | a revision's directory name belongs to one version only |
| `RawStore.ReadBack` | app/jcc_data/snapshot_reader.py:187-256 | reading a published directory gives back exactly what was published, and only for its own mode |
| `RawMeaning.CurrentVersionIff` | app/jcc_data/snapshot_reader.py:95-136 | a mode has a version exactly when one entry alone is its newest one, and that entry is complete, has no path characters, and names a season of digits |
| `RawMeaning.RevisionNames` | scripts/sync_jcc_data.py:289-291 | revision 1 bears version and season, revision k also -r and the numeral of k |
| `RawMeaning.NamesInOrder` | scripts/sync_jcc_data.py:199-199 | the base name sorts first, all other names by their characters |
| `RawMeaning.ReadableIff` | app/jcc_data/snapshot_reader.py:187-256 | exactly which directories read back, and as what: every file, the manifest, the directory name and the content hash must agree, optional manifest fields where present |
| `RawMeaning.PublicationReads` | scripts/sync_jcc_data.py:289-307 | a publication adds one directory, which reads back at once as what was published, with a complete manifest |
| `RawData.HashesAgreeIff` | app/jcc_data/canonical_hash.py:38-44 | two downloads have one hash exactly when configuration, versions, seasons, sets and every record under its key agree, whatever the order of keys and the lineup file |
| `RawSync.RawRevisionStore.Sync` | scripts/sync_jcc_data.py:239-307 | every answer and effect of one sync: bad config, unreadable directory, skipped (with the first matched directory of maximal revision), bad download, matched, updated |
| `RawSync.RawRevisionStore.ReadExisting` | scripts/sync_jcc_data.py:193-215 | reads exactly the matched directories, sorted with the base name first and then by name, or rejects when one cannot be read |
| `RawSync.HasFirst` | scripts/sync_jcc_data.py:199-199 | every non-empty set of directory names has a first one in the sorting order |
| `RawSync.NewestIsFirst` | scripts/sync_jcc_data.py:258-260 | the first maximum over the sorted list is the matched directory of highest revision that comes before all others of that revision |
| `RawHistory.OnlyOwnSelectedIff` | scripts/sync_jcc_data.py:193-199 | the filter selects only the version's own directories exactly when no stored version shadows it |
| `RawHistory.SyncKeepsStore` | scripts/sync_jcc_data.py:258-307 | every sync, whatever is stored, keeps the store sound, changes no existing directory, never collides when publishing, and reports a stored directory of its mode; a forced one reports its own version with the downloaded hash |
| `RawHistory.PublishKeepsStore` | scripts/sync_jcc_data.py:289-304 | every publication keeps the store sound: directories read back as published, one version per base name, distinct contents |
| `RawHistory.PublishIsGaplessIff` | scripts/sync_jcc_data.py:289-292 | after a publication revisions are numbered without gaps exactly when they were before and nothing matched or the highest matched revision is the version's own |
| `RawHistory.SyncIsGaplessIff` | scripts/sync_jcc_data.py:258-307 | the same for a whole sync, whichever way it answers |
| `RawHistory.SkipAnswersOwnIff` | scripts/sync_jcc_data.py:258-269 | an unforced answer names a directory of its own version exactly when the highest matched revision is an own one and no other version's directory of that revision sorts before it |
| `RawHistory.SameContentSameVersion` | scripts/sync_jcc_data.py:273-287 | a stored directory with the downloaded hash and mode belongs to the downloaded version |
| `RawHistory.MatchedIff` | scripts/sync_jcc_data.py:271-307 | a sync that compares contents answers a match exactly when some selected directory holds the very records downloaded, and otherwise publishes them in a new directory |
| `RawHistory.OtherModeBlocks` | scripts/sync_jcc_data.py:202-215 | one selected directory of another mode makes every sync of the version fail and change nothing |
| `RawHistory.PlainSync` | scripts/sync_jcc_data.py:193-307 | among versions without hyphens every sync leaves no gap and answers for its own version |
| `RawHistory.RevisionsAreInterval` | scripts/sync_jcc_data.py:289-292 | in a store without gaps the revisions of a version are exactly 1..n, each under its own name |
| `RawHistory.NextNameIsFree` | scripts/sync_jcc_data.py:184-186 | the next revision's directory never exists yet, whatever other versions are stored |
| `RawHistory.HyphenatedVersionMisleads` | scripts/sync_jcc_data.py:193-199 | a concrete shadowing version: an unforced sync answers with the wrong directory, a forced one starts the version at revision 2 |
| `Decimal.ValueOfPrint` | app/jcc_data/snapshot_reader.py:178-181 | parsing undoes decimal printing |
| `Decimal.PrintOfValue` | app/jcc_data/snapshot_reader.py:178-181 | printing undoes parsing of numerals without leading zero |
| `Decimal.PlacesCountTenfold` | app/jcc_data/snapshot_reader.py:178-181 | a further digit counts one and all before it ten times as much |
| `Decimal.NotationIsRead` | app/jcc_data/validation.py:61-66 | every text of the form sign, digits, point and digits, exponent is read as the number it means |
| `Decimal.ReadIsNotation` | app/jcc_data/validation.py:61-66 | and whatever is read has that form |
| `Validation.ParseDecimalIff` | app/jcc_data/validation.py:53-66 | a text denotes a number exactly when, stripped and without underscores, it is written as that number |
| `Validation.FieldsRead` | app/jcc_data/validation.py:16-66 | how single fields read: what is absent, what is an error, and what value there is |
| `Validation.CollectIds` | app/jcc_data/validation.py:85-100 | the id loop equals splitting, stripping, rejecting blanks and duplicates, and dropping sentinels |
| `Validation.CollectInts` | app/jcc_data/validation.py:103-111 | the integer loop equals reading every part as an integer in any decimal notation, or rejecting |
| `Validation.IntegerOfIff` | app/jcc_data/validation.py:53-66 | a decimal text counts as the integer v exactly when its value equals v, so fractions of zero and exponents are accepted and all else is not |
| `Validation.IntegerTextIsReadBack` | app/jcc_data/validation.py:53-66 | the text of an integer is read back as that integer |
| `Validation.SplitIsExact` | app/jcc_data/validation.py:90-90 | parts contain no delimiter and, with the delimiters between them, rejoin to the text |
| `Validation.AcceptedIds` | app/jcc_data/validation.py:85-100 | accepted ids are distinct, non-blank and exactly the parts that are no sentinels |
| `Validation.SplitIdsIff` | app/jcc_data/validation.py:85-100 | a relationship field is accepted exactly when it is present and its stripped parts are distinct and not blank; its ids are the parts that are no sentinels, in their order |
| `Validation.SplitIntsIff` | app/jcc_data/validation.py:103-111 | an integer list is accepted exactly when its parts are distinct integers, and gives theirs, part by part |
| `Text.StripIsExact` | app/jcc_data/validation.py:90-90 | stripping removes blanks from both ends, all of them, and nothing else |
| `Descriptions.FindMarkers` | app/jcc_data/adapters.py:188-188 | the scanning loop finds the markers of the text from left to right |
| `Descriptions.ScanFindsAll` | app/jcc_data/adapters.py:188-188 | a position is found exactly when the pattern matches there, with the same marker |
| `Descriptions.BracketsAreFound` | app/jcc_data/adapters.py:188-188 | wherever a positive numeral stands in brackets, the pattern matches and gives its number |
| `Descriptions.PiecesCoverText` | app/jcc_data/adapters.py:191-196 | the unstripped pieces concatenate to the text from the first marker on |
| `Descriptions.PiecesStartWithTheirCount` | app/jcc_data/adapters.py:181-196 | an accepted description has one piece per count; the k-th starts with its own marker and contains no other |
| `Descriptions.StripKeepsMarker` | app/jcc_data/adapters.py:191-196 | stripping a piece keeps its marker in front and removes only a tail |
| `TraitTables.BuildTraits` | app/jcc_data/adapters.py:238-323 | the loops over base and tier records build exactly the finished traits, or reject |
| `TraitTables.CollectTiers` | app/jcc_data/adapters.py:263-295 | the nested loops build the table of tiers, rejecting a level given twice |
| `TraitTables.BasesAreDistinct` | app/jcc_data/adapters.py:239-261 | no two base traits share kind and id; each has levels and an agreeing maxLevel |
| `TraitTables.TraitsAreOrderFree` | app/jcc_data/adapters.py:263-322 | permuting the tier records changes neither acceptance nor the result |
| `TraitProperties.TableMembers` | app/jcc_data/adapters.py:291-295 | the table holds exactly the tiers the records put there |
| `TraitProperties.TableIff` | app/jcc_data/adapters.py:263-295 | the table is built exactly when every record is readable and no level of a trait is given twice |
| `TraitProperties.AcceptedIff` | app/jcc_data/adapters.py:238-323 | trait records are accepted exactly when bases and tiers are readable, nothing clashes, and every base trait is given exactly its levels with their counts |
| `TraitProperties.AcceptedTraits` | app/jcc_data/adapters.py:297-322 | every accepted trait has levels exactly 1..n, in order, with the counts of its numList |
| `TraitProperties.NoTierLost` | app/jcc_data/adapters.py:265-295 | every tier of every record stands unchanged in the trait it names |
| `TraitProperties.NoTierInvented` | app/jcc_data/adapters.py:297-322 | every tier of every accepted trait comes from exactly one record |
| `TierEncodings.AggregateEqualsItsLevels` | app/jcc_data/adapters.py:199-235 | replacing an aggregate record, wherever it stands, by one record per level gives the same traits or the same rejection |
| `Adapter.BuildHeroes` | app/jcc_data/adapters.py:326-372 | the hero loops compute the heroes in record order and their relations; RecordMeaning.HeroReads says from which fields |
| `Adapter.BuildEquipment` | app/jcc_data/adapters.py:375-404 | the equipment and recipe loops: none or exactly two known components |
| `Adapter.BuildAugments` | app/jcc_data/adapters.py:407-423 | the augment loop: each id is its key, levels are integers or absent, or a rejection |
| `Adapter.BuildAdventures` | app/jcc_data/adapters.py:426-445 | the adventure loop: each id is the record's own field, which need not be its key, or a rejection |
| `Adapter.BuildGalaxies` | app/jcc_data/adapters.py:448-465 | the galaxy loop: each id is its key, or a rejection |
| `Adapter.BuildStructured` | app/jcc_data/adapters.py:468-496 | the whole structured snapshot, or a rejection |
| `AdapterProperties.HeroesOk` | app/jcc_data/adapters.py:366-371 | the relations are exactly those the records name, at their positions, all known, none twice |
| `AdapterProperties.RecipesOk` | app/jcc_data/adapters.py:395-403 | the recipes are exactly those the records name, over known equipment, one per piece |
| `RecordMeaning.HeroReads` | app/jcc_data/adapters.py:326-372 | a hero carries its record's key and name; its relations are the jobs named by the class field and then the races named by the species field, each at its position and known |
| `RecordMeaning.HeroAcceptedIff` | app/jcc_data/adapters.py:326-372 | exactly which hero records are accepted |
| `RecordMeaning.EquipmentReads` | app/jcc_data/adapters.py:375-391 | a piece of equipment carries its record's key and name, and exactly the records that have them are accepted |
| `RecordMeaning.ComponentsAreNamed` | app/jcc_data/adapters.py:393-396 | components are those of the first and then of the second field, leaving out empty ones and 0 |
| `RecordMeaning.RecipeReads` | app/jcc_data/adapters.py:392-403 | a record is accepted exactly when it names no component or two known ones, and its recipe is those two in order |
| `RecordMeaning.EntitiesRead` | app/jcc_data/adapters.py:407-465 | an augment, adventure or galaxy is its record's own id, name and number, and exactly the records that have them are accepted |
| `RecordMeaning.BaseReads` | app/jcc_data/adapters.py:239-261 | a base trait is its record's own fields, its levels are the numbers of numList, and exactly the agreeing records are accepted |
| `RecordMeaning.BasesFollowRecords` | app/jcc_data/adapters.py:239-261 | base traits are those of the race records and then of the job records, in record order |
| `RecordMeaning.ContributionReads` | app/jcc_data/adapters.py:199-295 | a tier record names its trait by kind code 0 or 1 and id; a single record is one tier of its own fields, an aggregate one a tier per count, whose description starts with that count in brackets |
| `RecordMeaning.ContributionIff` | app/jcc_data/adapters.py:199-295 | exactly which tier records can be read |
| `RecordMeaning.MetadataReads` | app/jcc_data/adapters.py:468-496 | a snapshot describes its raw revision, column by column |
| `RecordMeaning.ListsFollowRecords` | app/jcc_data/adapters.py:468-496 | each list of a snapshot follows the records of its own file, entry by entry |
| `RecordMeaning.SnapshotAcceptedIff` | app/jcc_data/adapters.py:315-496 | a download is accepted exactly when its traits are and every single hero, equipment, recipe, augment, adventure and galaxy record can be read, where a recipe may name equipment anywhere in its file |
| `AdapterProperties.AcceptedIsImportableIff` | app/jcc_data/adapters.py:238-465 | an accepted snapshot has every import lookup defined and satisfies every uniqueness constraint but one: it is importable exactly when its adventure records' own ids are distinct and every value fits its column |
| `JccDatabase.JccDatabase.ImportSnapshot` | app/jcc_data/repository.py:131-364 | the whole transaction: skipped, matched, updated, or an error that leaves everything unchanged; the invariant is kept |
| `JccDatabase.JccDatabase.InsertRows` | app/jcc_data/repository.py:193-348 | the insert loops over all tables succeed exactly on importable data and append exactly its rows |
| `JccDatabase.JccDatabase.SwitchCurrentSnapshot` | app/jcc_data/repository.py:674-689 | moves the pointer only to a snapshot of the mode |
| `JccDatabase.ImportKeepsDatabase` | app/jcc_data/repository.py:140-364 | every import keeps the tables equal to replaying the imports so far, snapshots unique and pointers sound |
| `JccStore.AddTraits` | app/jcc_data/repository.py:238-267 | the trait and tier inserts, against the constraints of the whole tables, and the id map they fill |
| `JccStore.AddRelations` | app/jcc_data/repository.py:269-279 | the relation inserts through both id maps |
| `JccStore.AddEntities` | app/jcc_data/repository.py:307-348 | the augment, adventure and galaxy inserts against the uniqueness of external ids in the whole table |
| `JccStore.LoopsAcceptImportable` | app/jcc_data/repository.py:210-348 | the column sizes and the loops together accept exactly the importable snapshots |
| `Publication.PublishedContent` | app/jcc_data/repository.py:207-306 | in every state the rows of a published snapshot are exactly those of the data imported as it |
| `Publication.PointerNamesPublished` | app/jcc_data/repository.py:349-354 | the current snapshot of a mode is a snapshot of that mode with exactly its imported rows |
| `Publication.CompleteIff` | app/jcc_data/repository.py:104-128 | the completeness check holds exactly when the incoming row counts are those of the first import |
| `Publication.ImportingAgain` | app/jcc_data/repository.py:148-191 | importing a published snapshot again writes no rows: a no-op when current, otherwise only the pointer moves |
| `Publication.SuccessPointsToImported` | app/jcc_data/repository.py:349-364 | after a successful import the mode's current snapshot has the incoming hash |
| `Publication.PublishedNeverChanges` | app/jcc_data/repository.py:131-364 | no run of imports and switches, failing or not, alters a published snapshot |
| `Publication.ContentAfter` | app/jcc_data/repository.py:193-306 | an import adds exactly the new snapshot's rows and none to an older one |
| `StoredRows.EntitiesStand` | app/jcc_data/repository.py:208-292 | heroes, traits and equipment of a published snapshot stand in its order, each column holding the imported value, in every later state |
| `StoredRows.LinksStand` | app/jcc_data/repository.py:269-306 | each relation and recipe row joins the stored rows of exactly the entities it names |
| `StoredRows.ListsStand` | app/jcc_data/repository.py:308-347 | the augment, adventure and galaxy rows are those of the imported lists, one by one |
| `StoredRows.TierRowReads` | app/jcc_data/repository.py:252-265 | a tier row carries its tier's columns |
| `StoredRows.ImportEnds` | app/jcc_data/repository.py:131-364 | how an import ends and what it leaves, in every case: incomplete, skipped, matched, inserted or rejected, each with its exact condition on the stored snapshots |
| `StoredRows.SizesDecide` | app/jcc_data/models.py:40-264 | the size condition of an import column by column; a new snapshot that breaks it is rejected whole |
| `StoredRows.SwitchEnds` | app/jcc_data/repository.py:674-689 | switching moves one pointer, and only to a snapshot of its mode |
| `Loaders.LoadHeroTraits` | app/jcc_data/repository.py:424-441 | the grouping loop gives each asked hero its race rows and its job rows in query order |
| `Loaders.LoadedInOrder` | app/jcc_data/repository.py:428-437 | any ordered result of the query holds, per hero and kind, exactly the imported relations in position order |
| `Loaders.PublishedIsStored` | app/jcc_data/repository.py:193-306 | rows of a published snapshot keep their places in the tables in every later state |
| `TierLoader.LoadTraitTiers` | app/jcc_data/repository.py:510-521 | the grouping loop for tiers |
| `TierLoader.LoadedTiers` | app/jcc_data/repository.py:514-518 | any ordered result of the query holds, per trait, exactly its imported tiers in order |
| `GearLoader.LoadEquipmentComponents` | app/jcc_data/repository.py:547-577 | the grouping loop for components, later rows overwriting earlier ones |
| `GearLoader.LoadedComponents` | app/jcc_data/repository.py:557-576 | any ordered result of the query gives, per piece of equipment, exactly its two components in order, or none |
| `RoundTrip.HeroRelationsRoundTrip` | app/jcc_data/repository.py:424-449 | adapt, import and load give back, for the row of each hero, the traits its record's class field (jobs) or species field (races) names: the stripped parts but 0 and -1, in source order, in every later state |
| `RoundTrip.HeroFieldsRoundTrip` | app/jcc_data/repository.py:424-449 | what the grouping loop returns for a hero: its races are those of the species field, its jobs those of the class field |
| `RoundTrip.BatchEqualsSingle` | app/jcc_data/repository.py:444-449 | a batched load gives each hero what a query for it alone gives |
| `RoundTrip.TraitTiersRoundTrip` | app/jcc_data/repository.py:510-521 | adapt, import and load give each trait its tiers 1..n with the counts of its source numList |
| `RoundTrip.ComponentsRoundTrip` | app/jcc_data/repository.py:547-577 | adapt, import and load give each piece of equipment the components its record's first and second field name, in this order |
| `Pipeline.UpdateJob.Run` | scripts/sync_jcc_data.py:408-441 | one run of the command from any consistent stores: it ends as its sync and then its import do, with each failure's exact condition; a success makes the answered hash current, under the requested version exactly when the sync answered an own directory, always so when forced; a failure changes no table |
| `Pipeline.UpdateJob.ImportDirectory` | app/jcc_data/sync_service.py:14-27 | which way importing a directory ends, told from the directory alone: unreadable, not adaptable, rejected by the database, or imported; a failure changes nothing |
| `Pipeline.StoredImportIff` | app/jcc_data/repository.py:140-207 | importing a stored adaptable directory succeeds exactly when its adventure ids are distinct and its values fit their columns, and is otherwise rejected without effect; revisions, completeness and lookups never reject it |
| `Pipeline.RunKeepsStores` | scripts/sync_jcc_data.py:258-307 | any run of syncs, imports and switches, whatever versions it names, keeps both stores consistent and only adds directories and snapshots |
| `Pipeline.ImportsSucceedIff` | app/jcc_data/repository.py:131-364 | starting empty, after any such run, the same holds of importing any adaptable directory, and a success makes its version and hash current |
| `Pipeline.RevisionsNumberedIff` | scripts/sync_jcc_data.py:289-292 | starting empty, after a run the revisions of each version are exactly 1..n if and only if each of its publications followed an own revision or found nothing |
| `Pipeline.ContentsAlwaysDiffer` | scripts/sync_jcc_data.py:273-287 | starting empty, after any run no version is stored twice with the same content |
| `Pipeline.PlainRuns` | scripts/sync_jcc_data.py:193-307 | a run whose configurations name only versions without hyphens numbers without gaps, and each of its syncs answers for its own version |
| `Pipeline.RepeatedAdventureFails` | app/jcc_data/adapters.py:426-434 | a concrete download whose two adventure records carry one id: published, accepted by the adapter, and rejected by the import, which changes nothing |
| `SnapshotPin.NewPin` | app/agent/orchestrator.py:304-311 | a step pins a run only by resolving it, to the context it resolved |
| `SnapshotPin.PinsAlwaysHold` | app/agent/orchestrator.py:294-313 | in every state of both sides, a recorded pin is what its snapshot row still says |
| `SnapshotPin.PinnedRunReadsTheSameSnapshot` | app/jcc_data/repository.py:371-372 | once pinned, every later execution resolves to the recorded context, and that snapshot keeps exactly its rows, whatever is imported or switched |
| `RagIndex.RagStore.IndexSnapshot` | app/rag/indexer.py:30-103 | a build of distinct documents succeeds exactly when every document that does not repeat the current generation is answered for, with its batch or alone, within four calls; success leaves exactly what embedding every document from scratch leaves, with the pointer moved and the old run retired; any failure leaves the whole index unchanged |
| `RagIndex.RagStore.Build` | app/rag/indexer.py:37-96 | reused count is exactly the documents that repeat the current generation under the same model and dimension; duplicates and a zero batch size are rejected |
| `RagIndex.EmbedPending` | app/rag/indexer.py:60-81 | the batches partition the pending list; a row ends up embedded exactly when its batch is answered or it is answered alone, with its own vector, and the embedded ones are counted |
| `RagIndex.EmbedBatch` | app/rag/indexer.py:61-76 | a batch completes exactly the documents that are answered for, with their batch or alone, each with its own vector |
| `RagIndex.LenientProviderServesAll` | app/rag/indexer.py:62-76 | a provider that never fails, or only on several texts at once, serves every document, so the build succeeds |
| `RagIndex.EmbedWithRetry` | app/rag/indexer.py:16-26 | is answered exactly when one of the first four calls is, and calls no further after an answer |
| `RagIndex.FourTries` | app/rag/indexer.py:16-26 | unanswered exactly when the first call and all three retries fail |
| `RagIndex.BuildRows` | app/rag/indexer.py:44-58 | a row starts embedded exactly when a fitting cached vector exists, and then equals its from-scratch row |
| `RagIndex.ReuseIsFromScratch` | app/rag/indexer.py:46-55 | a reused vector is the one embedding the document now would give |
| `RagIndex.ReusedIffRepeated` | app/rag/indexer.py:40-55 | a vector is reused exactly for documents that stand verbatim in the current generation of the same model and dimension |
| `RagIndex.PublishingKeepsIndex` | app/rag/indexer.py:84-95 | publishing keeps every row from-scratch and each mode's pointed run its only active one |
| `RagIndex.CurrentGenerationIsFromScratch` | app/rag/indexer.py:30-103 | across generations, model changes and failed builds, the current generation holds exactly its documents, each searchable with the vector of its own content under the build's model |
| `RagIndex.OlderGenerationsStay` | app/rag/indexer.py:82-95 | a later build changes no older generation and no other mode's pointer |
| `RateLimit.RateLimiter.Check` | app/core/rate_limit.py:24-35 | accepts exactly while fewer than limit accepted hits lie in the window, and leaves the deque equal to the part of the accepted history inside it |
| `RateLimit.AcceptancesAreSpaced` | app/core/rate_limit.py:24-35 | the (i+limit)-th acceptance of a key comes at least one window after the i-th |
| `RateLimit.RefusedOnlyWhenFull` | app/core/rate_limit.py:31-33 | a refusal means limit accepted hits inside the window; the check fails with an index error exactly when the limit is zero |
| `RateLimit.AllowedAgainWhen` | app/core/rate_limit.py:27-33 | after a refusal a later call passes exactly when the oldest hit has left the window |
| `RateLimit.RetryBounds` | app/core/rate_limit.py:32-32 | the advertised retry is at least 1, more than the wait minus 0.001, and not padded further |
| `RateLimit.RetryCoversWait` | app/core/rate_limit.py:32-32 | the advertised time is at least the wait exactly unless the wait is above one second and less than a millisecond above a whole number of seconds |
| `RateLimit.RetryPassesIff` | app/core/rate_limit.py:24-35 | in any state of the limiter, a refused caller that calls again after exactly the advertised time, with no acceptance in between, passes if and only if its wait was not cut short by rounding |
| `RateLimit.RetryCanBeTooShort` | app/core/rate_limit.py:24-35 | a concrete limiter and three calls: the second is told to wait one second, and the third, one second later, is refused again |
| `Summary.CompactHistory` | app/agent/summary.py:14-49 | the loop with its early break computes the compacted history |
| `Summary.FragmentReads` | app/agent/summary.py:36-39 | a fragment is the role's name, a colon and the message's words with single blanks |
| `Summary.FragmentsFollow` | app/agent/summary.py:35-42 | fragments follow the messages in order, one for each that is not blank |
| `Text.WordsAreExact` | app/agent/summary.py:36-36 | splitting into words loses nothing but blanks, joins no two words and cuts none |
| `Text.BlanksAre` | app/agent/summary.py:36-36 | exactly which characters count as white space when splitting and stripping |
| `Summary.TotalIsSum` | app/agent/summary.py:26-26 | the trigger compares the number of characters of all contents together |
| `Summary.RecentMessagesStay` | app/agent/summary.py:26-49 | the result is the unchanged input, or the exact last messages preceded by at most one system note, which is missing exactly when all older messages are blank |
| `Summary.FactsFitBudget` | app/agent/summary.py:33-45 | facts are an in-order prefix of the fragments, only the last may be cut; their join exceeds the budget by at most one character, something is dropped only when the budget is used up to one character, and no fact is started after that |
| `Summary.NoteLosesAtMostOneCharacter` | app/agent/summary.py:48-49 | the final cut drops at most one character |
| `Summary.OnlyEllipsisIsLost` | app/agent/summary.py:41-49 | the character that can be lost is the ellipsis |
| `TokenUsage.SumOfKnown` | app/agent/llm/base.py:15-28 | total usage is the sum of the known counts, unknown exactly when none is known |
| `TokenUsage.SumIsOrderFree` | app/agent/llm/base.py:15-28 | the order of responses does not matter |
| `TokenUsage.TotalsByField` | app/agent/llm/base.py:15-28 | input and output totals are each the sum of their own known counts |
| `TokenUsage.KnownFollows` | app/agent/llm/base.py:15-28 | the known counts of each field, response by response |
| `ToolLoop.Loop.Run` | app/agent/orchestrator.py:143-215 | the loop goes on through a turn exactly when nothing ends it there, and it ends as the first thing that does (`EndsSo`); however it ends, the messages are the history and then, at each round's place, the assistant's calls and one reply per call under that call's id, in order, the new audit rows are those calls' rows, and the model was asked at most the limit plus one times; on a normal return usage is summed and every row it created has ended |
| `ToolLoop.Loop.RunCall` | app/agent/orchestrator.py:168-214 | one call, exactly: whether and how it ends the execution, the result it answers otherwise, and the audit row it leaves, in every outcome, including a source or an event that fails after the row has ended |
| `ToolLoop.Loop.EndOfReads` | app/agent/orchestrator.py:168-213 | a call ends the execution exactly when its tool use id was used before, cancellation is noticed before or during it, or its start or its failure cannot be reported; its row stays in progress exactly when the tool was not reached |
| `ToolLoop.Loop.UndisturbedEnd` | app/agent/orchestrator.py:149-164 | without cancellation and undeliverable events, a run returns normally exactly when the model's last response calls no tool; otherwise the model failed, wanted more turns than allowed, or used a tool use id again |
| `ToolLoop.Loop.CancelledEnd` | app/agent/orchestrator.py:150-151 | cancellation noticed at the start of a turn stops the run before the model is asked again |
| `ToolLoop.Loop.FinishAudit` | app/conversations/repository.py:242-261 | an audit row is ended only while it is open |
| `ToolLoop.TranscriptIsLaidOut` | app/agent/orchestrator.py:165-215 | every transcript is laid out so: no reply is lost, added, reordered or given to another call |
| `ToolLoop.Loop.AuditDisagreesIff` | app/agent/orchestrator.py:174-213 | over the rows and replies of a whole run: a row says succeeded while the model is told an error exactly when the tool succeeded and saving its sources or reporting it failed afterwards |
| `ToolLoop.Loop.RowsAndRepliesFit` | app/agent/orchestrator.py:174-214 | over the rows and replies of a whole run, outcome by outcome: which rows are rejected, timed out, failed or succeeded, and which error code or output each reply carries |
| `ToolLoop.Loop.EndedRowReads` | app/agent/orchestrator.py:174-213 | how the row of a call ends, also when the execution is then cancelled |
| `ToolLoop.EndAuditEffect` | app/conversations/repository.py:242-261 | ending a row changes the status of that row alone, and only while it is in progress |
| `ToolLoop.TextsFollow` | app/agent/orchestrator.py:157-160 | the generated text is the rounds' texts in order, skipping empty ones |

## Left out

- HTTP routes, event streaming to clients, authentication, the model and embedding HTTP clients, URL fetching, command-line parsing, logging and file locks: input and output only.
- Event persistence and replay from the database; subscriber queues: only the in-memory history is modelled.
- Cancellation that lands inside one transaction: each committed transaction is one step.
- Columns that no property depends on: durations, costs, pricing keys, timestamps of rows, attack speed, hero types and skills, images, prefixes, descriptions of gear and entities, source attributes, and the source URLs and record counts inside manifests.
- Text normalisation, JSON encoding and hashing; digits outside ASCII.
- Which validation error a rejected record raises: a rejection is one value. The first failing constraint of an import is not told apart either.
- Building the document list of a snapshot: the indexer takes the list as given, with duplicate ids rejected as the database does.
- Integer statistics, map ids, levels and prices are read and checked for their size, but not kept in the rows.
- Primary keys of the snapshot tables are row positions, and a rolled-back index build also gives its key back.
- The rows of one index build are a sequence addressed by position; the pending list holds positions where the source holds references.
- A negative summary budget, and message roles outside the four the service writes.
- Saving conversation summaries, building prompts, and the retriever's full-text query.
- Pipeline.UpdateJob.Run: takes the download as a value, and leaves out the audit report that follows a successful update.
- TraitTables.BuildTraits: leaves out that an unprintable character, or an object or list in place of a text, rejects a record, also in its prefix and picture fields.
- TraitProperties.AcceptedIff: is about records that pass those same character and container checks.
- Adapter.BuildHeroes: leaves out those checks, among them the text fields and skill values that no relation depends on; an exponent beyond what the decimal type can hold is accepted where the source rejects it.
- Adapter.BuildStructured: the same for equipment, augments, adventures and galaxies.
- Pipeline.StoredImportIff: covers the sizes of the columns that the model carries; image addresses, categories and the other columns named above can be too long as well. Text that exceeds its column only by trailing blanks counts as too long, where the database server would cut it.
- AgentSystem.MoveKeepsWorld: a restart leaves no live execution, while the source gives up waiting for one after a timeout.
- RawMeaning.CurrentVersionIff: leaves out the resource paths that the version entry must also give, and its check for unprintable characters.
- RawMeaning.ReadableIff: leaves out the source addresses and record counts inside manifests, and unreadable or malformed files.
