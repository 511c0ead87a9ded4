# Models of the client recovery, settings, composer, keybinding, update and script logic

A Dafny project that models the self-contained algorithms and protocols of the repository and
proves what they are for. `dafny verify dfyconfig.toml` verifies all of it.

| module | what it models |
|---|---|
| `Recovery`, `RecoveryWorld` | the coordinator of the orchestration event stream, alone and in a world with a growing log, a channel that loses, repeats and reorders, snapshots and replays |
| `RetryPolicy` | the bounded retry of replays |
| `CommandGate` | the startup command gate as a transition system over the atomic steps of callers, worker, startup and finalizer |
| `SettingsSecrets`, `SecretNames`, `SettingsStrip` | sensitive variables split between file and secret store, the names of secrets, sparse settings |
| `ComposerSegments`, `ComposerCursor` | the prompt tokenizer and the maps between collapsed and expanded cursors |
| `WhenExpression`, `ShortcutEncoding` | printers and parsers of `when` conditions and key strings |
| `ShortcutResolution` | resolving key events, and effective shortcuts |
| `KeybindingConfig`, `KeybindingDefaults` | the keybindings file and its cache; the default keybindings |
| `UpdateManifest`, `ManifestMerge` | the update-manifest parser, printer and merger |
| `UpdateController` | the desktop update controller with its asynchronous actions and updater events |
| `HistoryBootstrap`, `ReleaseTags`, `RigBinding`, `YamlLines`, `ListeningDetector` | transcript packing, release-tag order and resolution, in-place TOML and YAML rewriting, the bounded-buffer stream matcher |
| `Prelude`, `Text` | shared vocabulary; white space, trimming, splitting, joining |

How things are modelled:

- Code that changes variables or fields is a class or a method with loops. A method is proved
  against a specification function, and what it guarantees its caller stands beside that; the
  properties are lemmas about those functions and their runs. Where runs matter, a method `Drive`
  takes the object through any run and ties it to them.
- Concurrency is a transition system whose steps are the atomic operations, so a run is an
  interleaving. Effects that the source serializes with a semaphore are one step.
- Texts are sequences of characters standing for UTF-16 code units; lengths and offsets count
  them. Lower-casing is ASCII.
- What a module does not depend on is a parameter: the text order of the locale, the compiler of
  one keybinding rule, the layout of a bootstrap prompt, the naming of secrets, the membership of
  versions in channels. Where the source fixes it, a function gives the source's choice.
- `RecoveryWorld` includes a driver, since nothing in the repository calls the coordinator: it
  applies what is judged applicable, runs the recoveries asked for, and does not install a
  snapshot older than the cursor.
- `UpdateController` trusts the updater to report at most once per check, to fail a check only
  unreported, and to raise progress and completion only for the accepted download and its version.

Where the code falls short of a property, one lemma gives an input and another the exact condition:

- a replay batch with the same event twice applies it twice (`Recovery.DuplicateInBatchIsAppliedTwice`,
  `Recovery.BatchAppliesOnceIffDistinct`);
- a replay remembered while a second snapshot was in flight is stranded if that is lost
  (`RecoveryWorld.LostSnapshotStrandsReplay`, `RecoveryWorld.OwedWorkCatchesUp`);
- the readiness Deferred stays open, and a queued command waits for ever, if startup is interrupted
  between its two writes (`CommandGate.InterruptedStartupStrandsCommand`,
  `CommandGate.DeferredOpenIffInterruptedMidSignal`);
- a secret is lost if a later entry repeats its name (`SettingsSecrets.DuplicateNameLosesSecret`,
  `SettingsSecrets.TypedReadsBackIff`);
- settings without a default key read back with it (`SettingsStrip.MissingKeyIsRestored`,
  `SettingsStrip.RestoredIff`);
- an upserted rule that reading the file rejects leaves cache and file apart
  (`KeybindingDefaults.UnreadableUpsertIsIncoherent`, `KeybindingConfig.UpsertCoherentIff`), and a
  startup sync that drops rules need not be idempotent
  (`KeybindingDefaults.TruncatingSyncIsNotIdempotent`, `KeybindingConfig.SyncStableIff`);
- a physical key code can reach another binding than the effective shortcut promises
  (`ShortcutResolution.KeyCodeCanShadow`, `ShortcutResolution.AlwaysResolvesIff`);
- an extra key such as "constructor" makes merging depend on which manifest is the primary one
  (`ManifestMerge.ConstructorMergesOneWay`, `ManifestMerge.MergeCommutesIff`);
- "downloaded" can be shown without a downloaded version
  (`UpdateController.DisturbedInstallLosesVersion`, `UpdateController.DownloadedHasVersionIff`);
- packing can leave out messages that would fit (`HistoryBootstrap.GreedyNeedNotBeLargest`,
  `HistoryBootstrap.GreedyIsLargestIff`).

Three printers are undone by their readers only on some inputs; the theorem is the exact condition:
conditions nested at most 64 deep (`WhenExpression.RoundTripIff`), keys that a key string can name
(`ShortcutEncoding.RoundTripIff`), well-formed manifests (`UpdateManifest.RoundTripIff`).

## Model

| member | source | states |
|---|---|---|
| `Recovery.Coordinator.MarkEventBatchApplied` | apps/web/src/orchestrationRecovery.ts:140-151 | in any state: returns exactly the events above the old cursor, in order; the new cursor is not below any event of the batch, is the sequence of one of them if it moved, and never moves back |
| `Recovery.Coordinator.CompleteSnapshotRecovery` | apps/web/src/orchestrationRecovery.ts:166-172 | in any state: the cursor covers the snapshot and never moves back; if no replay is asked for, everything observed is covered and none was pending |
| `Recovery.Coordinator.CompleteReplayRecovery` | apps/web/src/orchestrationRecovery.ts:193-203 | in any state: progress is reported exactly if the cursor moved since the replay began, and if no further replay is asked for, everything observed is covered and none was pending |
| `Recovery.SortBySequenceSorts` | apps/web/src/orchestrationRecovery.ts:141-143 | the batch sort is a sorted permutation of the batch |
| `Recovery.SortedPermutationIsUnique` | apps/web/src/orchestrationRecovery.ts:141-143 | for distinct sequences the sorted batch does not depend on the order of arrival |
| `Recovery.BatchAppliesOnceIffDistinct` | apps/web/src/orchestrationRecovery.ts:140-151 | a batch is applied in strictly increasing order exactly when its new events have distinct sequences |
| `Recovery.DuplicateInBatchIsAppliedTwice` | apps/web/src/orchestrationRecovery.ts:140-151 | an event given twice in one batch is returned twice |
| `RecoveryWorld.StepKeepsInv` | apps/web/src/orchestrationRecovery.ts:88-211 | every step of the world (log growth, delivery, snapshot and replay requests, answers, losses) keeps the client consistent with the log |
| `RecoveryWorld.EveryRunIsConsistent` | apps/web/src/orchestrationRecovery.ts:88-211 | in every run the applied state is the fold of the log up to the cursor, and the events applied since the last snapshot are that stretch of the log, each once and in order |
| `RecoveryWorld.RunsFromStartAreConsistent` | apps/web/src/orchestrationRecovery.ts:88-96 | the same from the initial coordinator and an empty log |
| `RecoveryWorld.QuietCompletionCoversDeliveries` | apps/web/src/orchestrationRecovery.ts:107-117 | when a recovery completes without asking for a replay, the cursor covers every event ever delivered |
| `RecoveryWorld.ReplayCatchesUp` | apps/server/src/ws.ts:826-848 | finishing a replay that was served at the end of the log folds the whole log and puts the cursor at its end |
| `RecoveryWorld.NextEventIsApplied` | apps/web/src/orchestrationRecovery.ts:124-151 | delivered to a free client, the event next to the cursor is applied to the view at once, and only it |
| `RecoveryWorld.DeliveryIsAnswered` | apps/web/src/orchestrationRecovery.ts:124-138 | delivered to a free client, an event is covered, applied, or leaves a replay owed; a client that is not free stays as it is and remembers that it saw more |
| `RecoveryWorld.FreeAndQuietIsCurrent` | apps/web/src/orchestrationRecovery.ts:107-138 | in every run, a free client that owes and remembers no replay has applied everything it was ever delivered |
| `RecoveryWorld.OwedUntilAnswered` | apps/web/src/orchestrationRecovery.ts:107-203 | a replay stays owed until one starts or a recovery completes |
| `RecoveryWorld.StartsAreAnswered` | apps/web/src/orchestrationRecovery.ts:153-191 | a replay starts from the cursor if the client is free and is remembered if not; a snapshot is refused only while something is in flight |
| `RecoveryWorld.LossEndsRequest` | apps/web/src/orchestrationRecovery.ts:174-209 | what is lost is no longer in flight; a lost replay makes the client load a snapshot again |
| `RecoveryWorld.CatchesUp` | apps/web/src/orchestrationRecovery.ts:88-211 | however a run went, at most 6 further steps in which nothing is lost fold the whole log into the view, with nothing in flight and no replay owed |
| `RecoveryWorld.OwedWorkCatchesUp` | apps/web/src/orchestrationRecovery.ts:88-211 | once the client has seen the end of the log, doing only what is owed does so, exactly unless a remembered replay is stranded, and then nothing is owed |
| `RecoveryWorld.LostSnapshotStrandsReplay` | apps/web/src/orchestrationRecovery.ts:174-176 | a run that strands one: an event put off during a second snapshot, which is then lost |
| `RecoveryWorld.Perform` | apps/web/src/orchestrationRecovery.ts:88-211 | one step taken by the coordinator object is the step of the world, and keeps its invariant |
| `RecoveryWorld.Drive` | apps/web/src/orchestrationRecovery.ts:88-211 | a new coordinator object driven through any run ends where the run says, with the invariant |
| `RetryPolicy.RetryDecreasesMeasure` | apps/web/src/orchestrationRecovery.ts:39-86 | without new observations each retry lowers the pair of remaining gap and remaining attempts |
| `RetryPolicy.RetriesExactlyWhen` | apps/web/src/orchestrationRecovery.ts:39-86 | a replay is retried exactly if something observed is missing and it gained something or attempts are left; after a gain at once and from a fresh count |
| `RetryPolicy.FirstRetry` | apps/web/src/orchestrationRecovery.ts:68-85 | a replay either closes part of the gap and clears the count, or spends one attempt and waits base times a power of two |
| `RetryPolicy.RetriesAreBounded` | apps/web/src/orchestrationRecovery.ts:39-86 | however replays progress, the number of retries is bounded by gap and attempt limit |
| `RetryPolicy.OneFrontierCost` | apps/web/src/orchestrationRecovery.ts:62-85 | at one frontier the number of retries is the attempts left, and their total delay base times a difference of powers of two |
| `RetryPolicy.DelayIsBounded` | apps/web/src/orchestrationRecovery.ts:39-86 | the total delay of a whole run is bounded by gap, attempt limit and base delay |
| `CommandGate.StepKeepsInv` | apps/server/src/serverRuntimeStartup.ts:90-147 | each atomic step of callers, worker, startup and finalizer keeps the gate invariant |
| `CommandGate.EveryRunKeepsInv` | apps/server/src/serverRuntimeStartup.ts:90-147 | the invariant holds after every interleaving |
| `CommandGate.CommandsRunInOrderAndOnce` | apps/server/src/serverRuntimeStartup.ts:95-98 | no effect before readiness; queued commands start in the order offered; no command runs twice |
| `CommandGate.ProcessedCommandsAreSettled` | apps/server/src/serverRuntimeStartup.ts:85-88 | each queued command the worker has processed is settled with its own exit, or with the readiness error |
| `CommandGate.EveryAnswerIsRight` | apps/server/src/serverRuntimeStartup.ts:85-147 | in every run: whoever gets an exit ran and gets its own, whoever gets an error never ran and gets the one the gate is closed with |
| `CommandGate.ClosedGateRefuses` | apps/server/src/serverRuntimeStartup.ts:125-134 | a call to a closed gate is rejected with its error, and the command is never queued and never runs, in any continuation |
| `CommandGate.DirectCommandGetsItsExit` | apps/server/src/serverRuntimeStartup.ts:127-129 | a command run directly is settled with its own exit for good |
| `CommandGate.ReadyGateRunsDirectly` | apps/server/src/serverRuntimeStartup.ts:127-129 | a call that finds commands ready is never queued nor rejected |
| `CommandGate.PendingGateQueues` | apps/server/src/serverRuntimeStartup.ts:136-142 | a call that finds commands pending runs only by the worker, if at all |
| `CommandGate.FailedStartCloses` | apps/server/src/serverRuntimeStartup.ts:109-113 | a start that failed closes the gate with its error for good |
| `CommandGate.ShutdownCloses` | apps/server/src/serverRuntimeStartup.ts:114-121 | a finished shutdown of a gate that no failed start had closed has closed it with its own error |
| `CommandGate.ShutdownEnds` | apps/server/src/serverRuntimeStartup.ts:114-121 | a shutdown that has begun is over after at most two more steps of its own, which nothing holds up |
| `CommandGate.ClosedGateNeverRuns` | apps/server/src/serverRuntimeStartup.ts:109-121 | after a failed start, or a shutdown from pending, no effect has run nor ever runs |
| `CommandGate.ClosingSticks` | apps/server/src/serverRuntimeStartup.ts:109-121 | that the start failed, or that shutdown found commands pending, is never undone |
| `CommandGate.DeferredOpenIffInterruptedMidSignal` | apps/server/src/serverRuntimeStartup.ts:105-113 | once shutdown has finished, the readiness Deferred is still open exactly if startup was interrupted between setting the state and completing it |
| `CommandGate.InterruptedStartupStrandsCommand` | apps/server/src/serverRuntimeStartup.ts:105-121 | such a run exists, and the command that the worker holds in it is never settled, however it goes on |
| `CommandGate.StrandedForEver` | apps/server/src/serverRuntimeStartup.ts:95-98 | with startup and shutdown over and the Deferred open, a queued command is never settled |
| `CommandGate.WorkerDrains` | apps/server/src/serverRuntimeStartup.ts:95-98 | once the Deferred is complete, a bounded number of worker steps settles every command ever offered, each with the outcome owed |
| `CommandGate.RunsCompose` | apps/server/src/serverRuntimeStartup.ts:90-147 | runs compose, so statements about all runs speak of every continuation |
| `SettingsSecrets.SettingsService.PersistEnvironment` | apps/server/src/serverSettings.ts:361-408 | the loop over one environment: what is kept of each variable, the store effects, and the keys of sensitive variables |
| `SettingsSecrets.SettingsService.SweepStale` | apps/server/src/serverSettings.ts:411-424 | the loop over the old settings: removes the secrets of sensitive variables that the new settings no longer have |
| `SettingsSecrets.SettingsService.Persist` | apps/server/src/serverSettings.ts:351-431 | persisting rewrites every variable and leaves exactly the specified store |
| `SettingsSecrets.SettingsService.Materialize` | apps/server/src/serverSettings.ts:310-349 | reading puts the stored secret into each sensitive redacted variable and changes nothing else |
| `SettingsSecrets.SettingsService.UpdateSettings` | apps/server/src/serverSettings.ts:530-554 | an update installs the persisted settings and store, and returns what a reader then sees |
| `SettingsSecrets.UpdateAt` | apps/server/src/serverSettings.ts:361-408 | with distinct keys the secret of each new variable is the typed one, gone, or left, by that variable alone |
| `SettingsSecrets.UpdateElsewhere` | apps/server/src/serverSettings.ts:411-424 | any other key keeps its value unless it held a sensitive variable of the old settings |
| `SettingsSecrets.ReadBack` | apps/server/src/serverSettings.ts:310-433 | after an update a plain or typed value reads back as given, one left redacted as what was stored |
| `SettingsSecrets.RedactedKeepsValue` | apps/server/src/serverSettings.ts:310-433 | a variable left redacted reads as before if the settings held its secret, and as empty otherwise |
| `SettingsSecrets.RedactedReadIff` | apps/server/src/serverSettings.ts:65-92 | redacting what was read gives the settings file back exactly if the file is clean |
| `SettingsSecrets.ClientSeesNoSecret` | apps/server/src/serverSettings.ts:65-92 | what a client is shown holds no secret: a sensitive variable is blank, and marked exactly if it has a value |
| `SettingsSecrets.MapFixedIff` | apps/server/src/serverSettings.ts:77-92 | rewriting leaves the settings as they are exactly if it leaves every variable |
| `SettingsSecrets.UpdateKeepsInv` | apps/server/src/serverSettings.ts:351-431 | one update keeps: no secret in the settings, only secrets of sensitive redacted variables in the store, other secrets untouched |
| `SettingsSecrets.EveryRunKeepsInv` | apps/server/src/serverSettings.ts:530-554 | the same after any run of updates from empty settings |
| `SettingsSecrets.EchoChangesNothing` | apps/server/src/serverSettings.ts:65-92 | sending back what a client was shown changes neither settings nor store |
| `SettingsSecrets.ReadBackAny` | apps/server/src/serverSettings.ts:310-433 | for any settings, names repeated or not: each variable reads back as given or as what all the entries of its key, in order, leave in the store |
| `SettingsSecrets.TypedReadsBackIff` | apps/server/src/serverSettings.ts:351-408 | a typed secret reads back as typed exactly if, from its entry on, the last entry of its key that is not left redacted sets that same value |
| `SettingsSecrets.DuplicateNameLosesSecret` | apps/server/src/serverSettings.ts:364-378 | an input on which it does not: a plain variable of the same name wipes the secret typed before it |
| `SecretNames.Base64UrlInjective` | apps/server/src/serverSettings.ts:58-63 | base64url of ASCII texts is injective |
| `SecretNames.SecretNameInjective` | apps/server/src/serverSettings.ts:58-63 | two (instance, variable) pairs that the schema admits never share a secret name |
| `SecretNames.SourceNamingIsSound` | apps/server/src/serverSettings.ts:58-63 | the names of the source meet what the runs above assume of names |
| `SecretNames.SymbolsAreTheAlphabet` | apps/server/src/serverSettings.ts:58-63 | the alphabet of section 5 of RFC 4648 |
| `SecretNames.TestVectors` | apps/server/src/serverSettings.ts:58-63 | test vectors of section 10 of RFC 4648 |
| `SecretNames.ThreeBytesAtATime` | apps/server/src/serverSettings.ts:58-63 | longer texts are encoded three bytes at a time |
| `SecretNames.PatternExamples` | packages/contracts/src/providerInstance.ts:49-98 | what the schema patterns take and refuse |
| `SecretNames.UnrestrictedNamesCollide` | apps/server/src/serverSettings.ts:58-63 | why the schema patterns are needed: on names that the schema refuses, different pairs would share a name |
| `SettingsStrip.StripDefaults` | apps/server/src/serverSettings.ts:207-239 | the loop over the keys computes the stripped tree |
| `SettingsStrip.RestoredIff` | apps/server/src/serverSettings.ts:207-239 | laying the stripped tree over the defaults restores the original exactly if it has every default key at each level compared field by field |
| `SettingsStrip.NothingKeptIff` | apps/server/src/serverSettings.ts:207-239 | given all default keys, nothing is kept exactly if the tree is the defaults |
| `SettingsStrip.WriteThenReadIff` | apps/server/src/serverSettings.ts:435-441 | the same for the file, where nothing kept is written as an empty object |
| `SettingsStrip.MissingKeyIsRestored` | apps/server/src/serverSettings.ts:219-236 | a missing default key comes back on reading |
| `SettingsStrip.StrippedIsSparse` | apps/server/src/serverSettings.ts:207-239 | nothing kept equals its default, at each level compared field by field, and no object is kept empty |
| `SettingsStrip.SparseIsKept` | apps/server/src/serverSettings.ts:207-239 | of all such sparse trees only the kept one reads as the given settings |
| `SettingsStrip.SelectionIsKeptWhole` | apps/server/src/serverSettings.ts:204-236 | the model selection is kept whole or not at all, any other object field by field |
| `ComposerSegments.CollectedAreTokens` | apps/web/src/composer-editor-mentions.ts:55-83 | the collected matches are exactly the tokens of the text, in ascending order |
| `ComposerSegments.TokensDoNotOverlap` | apps/web/src/composer-editor-mentions.ts:24-25 | two tokens never overlap |
| `ComposerSegments.SortMatchesSorts` | apps/web/src/composer-editor-mentions.ts:82 | the sort keeps the matches and orders them by start |
| `ComposerSegments.CollectedChain` | apps/web/src/composer-editor-mentions.ts:171-174 | each match starts at or behind the end of the one before: the skip guard never fires |
| `ComposerSegments.SplitText` | apps/web/src/composer-editor-mentions.ts:163-194 | the loop over the matches computes the segments of a text |
| `ComposerSegments.PromptSlices` | apps/web/src/composer-editor-mentions.ts:85-135 | the loop over the prompt visits its placeholders and the non-empty texts between them |
| `ComposerSegments.SplitPrompt` | apps/web/src/composer-editor-mentions.ts:233-258 | the visitor builds the segments of a prompt, numbering the placeholders |
| `ComposerSegments.SlicesTile` | apps/web/src/composer-editor-mentions.ts:100-132 | the slices tile the prompt |
| `ComposerSegments.TextPrints` | apps/web/src/composer-editor-mentions.ts:163-194 | printing the segments of a text gives the text |
| `ComposerSegments.SplitIsLossless` | apps/web/src/composer-editor-mentions.ts:233-258 | printing the segments of a prompt, mentions with "@", skills with "$", gives the prompt |
| `ComposerSegments.TextTokensExact` | apps/web/src/composer-editor-mentions.ts:163-194 | a text has a token segment at an offset exactly if a token of that kind and name stands there |
| `ComposerSegments.SegmentsAreExactlyTheTokens` | apps/web/src/composer-editor-mentions.ts:233-258 | the token segments of a prompt are exactly its tokens, and the k-th placeholder carries the k-th context |
| `ComposerCursor.ExpandCollapsedComposerCursor` | apps/web/src/composer-logic.ts:45-92 | the loop computes the expanded position of a clamped cursor |
| `ComposerCursor.CollapseExpandedComposerCursor` | apps/web/src/composer-logic.ts:133-186 | the loop computes the collapsed position of a clamped cursor |
| `ComposerCursor.ClampCollapsedComposerCursor` | apps/web/src/composer-logic.ts:107-131 | the greatest valid position not above the cursor (the first if there is none, the last for a number that is not finite), the same as going out and back |
| `ComposerCursor.IsCollapsedCursorAdjacentToInlineToken` | apps/web/src/composer-logic.ts:188-214 | the loop decides adjacency to an inline token |
| `ComposerCursor.GaloisConnection` | apps/web/src/composer-logic.ts:45-186 | collapse(e) <= c exactly if e <= expand(c), on valid positions |
| `ComposerCursor.MapsAreMonotone` | apps/web/src/composer-logic.ts:45-186 | both cursor maps are monotone |
| `ComposerCursor.CollapseUndoesExpand` | apps/web/src/composer-logic.ts:45-186 | collapse after expand is the identity up to the collapsed length, and that length beyond it |
| `ComposerCursor.CollapseAfterExpandIsClamp` | apps/web/src/composer-logic.ts:107-131 | for every input, collapse after expand is the collapsed clamp |
| `ComposerCursor.ExpandAfterCollapseSnaps` | apps/web/src/composer-logic.ts:143-183 | expand after collapse moves a cursor strictly inside a token to the end of the token and no other |
| `ComposerCursor.ExpandAfterCollapse` | apps/web/src/composer-logic.ts:45-186 | on a prompt, a cursor strictly inside a token lands on its end, and any other stays |
| `ComposerCursor.SnapMovesOnlyInside` | apps/web/src/composer-logic.ts:143-183 | a position is moved only if it lies strictly inside a token, and then to its end |
| `ComposerCursor.TotalIsPrintedLength` | apps/web/src/composer-logic.ts:22-25 | the expanded length of the segments is the length of the prompt |
| `ComposerCursor.AdjacentIffBoundary` | apps/web/src/composer-logic.ts:198-213 | a cursor is adjacent to a token on a side exactly if it stands at that token's boundary |
| `UpdateManifest.ReadLines` | scripts/lib/update-manifest.ts:73-168 | the loop over the lines keeps the parser state, and stops at the first error |
| `UpdateManifest.ParseUpdateManifest` | scripts/lib/update-manifest.ts:67-186 | splits, reads, and checks that version, date and files are there |
| `UpdateManifest.SerializeUpdateManifest` | scripts/lib/update-manifest.ts:250-277 | prints version, files, the extras in ascending order of their keys, each once, and the date |
| `UpdateManifest.SortedKeys` | scripts/lib/update-manifest.ts:264 | the sort of the keys: all of them, each once, ascending |
| `UpdateManifest.AscendingIsUnique` | scripts/lib/update-manifest.ts:264 | there is only one such order |
| `UpdateManifest.ScalarIsRead` | scripts/lib/update-manifest.ts:54-65 | every printed scalar is read as itself, also texts that look like numbers or flags |
| `UpdateManifest.QuotedIsRead` | scripts/lib/update-manifest.ts:22-27 | a quoted text is read as itself, whatever quotes it holds |
| `UpdateManifest.ParsePrinted` | scripts/lib/update-manifest.ts:239-277 | reading a printed manifest fails if a url or hash is blank, and otherwise gives it back with urls and hashes trimmed and unquoted, if complete |
| `UpdateManifest.ParsedIsPrintable` | scripts/lib/update-manifest.ts:170-185 | what was read has version, date, files and legal keys, and no line terminator anywhere |
| `UpdateManifest.RoundTripIff` | scripts/lib/update-manifest.ts:67-277 | a printed manifest is read back as itself exactly if it is well formed |
| `ManifestMerge.MergeUpdateManifests` | scripts/lib/update-manifest.ts:208-237 | merging succeeds or fails as specified, inherited names included; different versions are told first |
| `ManifestMerge.CollectFiles` | scripts/lib/update-manifest.ts:219-228 | the loop over the files keeps one per url and stops at a conflict |
| `ManifestMerge.MergeExtras` | scripts/lib/update-manifest.ts:188-206 | the loop over the extras joins them, and throws exactly if a key has two values or only the secondary has a key with an inherited name |
| `ManifestMerge.MergeFilesIff` | scripts/lib/update-manifest.ts:219-228 | files merge exactly if no url stands for two different files, to the same files with each url once |
| `ManifestMerge.MergesIff` | scripts/lib/update-manifest.ts:188-237 | two manifests merge exactly if versions, files and values agree and the secondary brings no key with an inherited name |
| `ManifestMerge.MergedHoldsBoth` | scripts/lib/update-manifest.ts:208-237 | a merged manifest has the later of the two dates, the files of both, each once, and of each key what either says |
| `Text.LexLeIff` | scripts/lib/update-manifest.ts:231-232 | the order of dates as texts: a prefix first, and otherwise by the first character that differs |
| `ManifestMerge.MergeCommutesIff` | scripts/lib/update-manifest.ts:208-237 | both orders succeed alike exactly unless just one of two otherwise compatible manifests has a key with an inherited name that the other lacks; where both succeed, the results differ in the order of files only |
| `ManifestMerge.ConstructorMergesOneWay` | scripts/lib/update-manifest.ts:193-200 | a manifest with the extra key "constructor" merges as the primary one and throws as the secondary one |
| `ManifestMerge.MergeAssociates` | scripts/lib/update-manifest.ts:208-237 | three manifests, each merging with the next, merge or fail alike in either grouping |
| `ManifestMerge.MergeWithItselfIff` | scripts/lib/update-manifest.ts:208-237 | merging a manifest with itself gives it back exactly if it lists no url twice |
| `WhenExpression.Tokenize` | packages/shared/src/keybindings.ts:116-163 | the loop over the characters computes the tokens |
| `WhenExpression.Parser.Primary` | packages/shared/src/keybindings.ts:170-194 | a name, or a parenthesized expression one level deeper, up to the depth limit |
| `WhenExpression.Parser.Unary` | packages/shared/src/keybindings.ts:196-215 | a run of negations of bounded length before a primary |
| `WhenExpression.Parser.Conjunction` | packages/shared/src/keybindings.ts:217-229 | conjunctions, associating to the left |
| `WhenExpression.Parser.Disjunction` | packages/shared/src/keybindings.ts:231-243 | disjunctions of conjunctions, associating to the left |
| `WhenExpression.ParseWhenExpression` | packages/shared/src/keybindings.ts:165-248 | an expression is read only if all its tokens are used |
| `WhenExpression.EncodeTokenizes` | apps/server/src/keybindings.ts:161-172 | a printed node is read as its tokens wherever it stands |
| `WhenExpression.RoundTripIff` | apps/server/src/keybindings.ts:161-172 | a printed condition is read back as itself exactly if its names are identifiers and its parentheses nest at most 64 deep |
| `WhenExpression.UniqueReadability` | apps/server/src/keybindings.ts:161-172 | two conditions over ordinary names that print alike are equal, at any depth |
| `WhenExpression.PlainConditionsRead` | packages/shared/src/keybindings.ts:116-248 | a name alone and a name behind "!" are read without parentheses |
| `WhenExpression.PrecedenceOfOperators` | packages/shared/src/keybindings.ts:217-243 | a disjunction of conjunctions without parentheses around them is read as that, to the left in both |
| `WhenExpression.NegationsRead` | packages/shared/src/keybindings.ts:196-215 | up to 64 negations before a name are read, and no more |
| `ShortcutEncoding.ParseKeybindingShortcut` | packages/shared/src/keybindings.ts:52-114 | the loops over the tokens compute the shortcut of a key string |
| `ShortcutEncoding.SameEncodingIff` | apps/server/src/keybindings.ts:148-159 | two shortcuts print alike exactly if they differ at most in writing the space key as a blank or as the word |
| `ShortcutEncoding.ParseMakesOkKeys` | packages/shared/src/keybindings.ts:46-114 | which keys a key string can name |
| `ShortcutEncoding.RoundTripIff` | apps/server/src/keybindings.ts:148-159 | a printed shortcut is read back as itself exactly if its key can be named |
| `ShortcutEncoding.ReprintParsesAlike` | apps/server/src/keybindings.ts:113-119 | printing a parsed shortcut never fails and parses to the same |
| `ShortcutEncoding.ModifierWordsMean` | packages/shared/src/keybindings.ts:84-103 | what each of the nine words for a modifier stands for |
| `ShortcutEncoding.WordPressesModifier` | packages/shared/src/keybindings.ts:52-114 | such a word before a key presses that modifier and no other |
| `ShortcutEncoding.SameContextIff` | apps/server/src/keybindings.ts:113-126 | rules that compile share a shortcut context exactly if their keys parse alike and their conditions are the same text |
| `ShortcutResolution.ConflictKeyIff` | apps/web/src/keybindings.ts:142-154 | two shortcuts have the same conflict text exactly if key and effective modifiers are the same |
| `ShortcutResolution.ConditionMeaning` | apps/web/src/keybindings.ts:118-140 | a binding under a negation, conjunction or disjunction is active as logic says of its parts, under a name as the context says, and without a condition always |
| `ShortcutResolution.GivenContext` | apps/web/src/keybindings.ts:110-116 | the two names of the terminal are false unless given, any other name is as given |
| `ShortcutResolution.ResolvePush` | apps/web/src/keybindings.ts:193-209 | a binding put behind the others wins where it is active and matches, and changes nothing elsewhere |
| `ShortcutResolution.ResolveShortcutCommand` | apps/web/src/keybindings.ts:193-209 | the backward loop finds the last active matching binding, and nothing exactly if none matches |
| `ShortcutResolution.FindEffectiveShortcutForCommand` | apps/web/src/keybindings.ts:156-182 | the backward loop with its set of claimed texts finds the shortcut of the command's last binding whose keys no later active binding takes |
| `ShortcutResolution.MatchesTogetherIff` | apps/web/src/keybindings.ts:82-104 | an event without a key code matches two shortcuts together exactly if they collide |
| `ShortcutResolution.EffectiveShortcutResolves` | apps/web/src/keybindings.ts:156-209 | pressing a command's effective shortcut resolves to that command |
| `ShortcutResolution.ResolvedCommandIsEffective` | apps/web/src/keybindings.ts:156-209 | a command that any event resolves to, with a key code or without, has an effective shortcut |
| `ShortcutResolution.EffectiveIffReachable` | apps/web/src/keybindings.ts:156-209 | over parsed keys a command has an effective shortcut exactly if some event resolves to it, and then one without a key code does |
| `ShortcutResolution.AlwaysResolvesIff` | apps/web/src/keybindings.ts:50-209 | every event that presses a live binding, with a key code or without, resolves to its command exactly if no later live binding of another command has the same modifiers with a bracket or a digit as one of the two keys |
| `ShortcutResolution.KeyCodeCanShadow` | apps/web/src/keybindings.ts:50-80 | an input on which it does not: with a key code the two searches disagree |
| `KeybindingConfig.LoadRuntimeCustomConfig` | apps/server/src/keybindings.ts:382-437 | the loop over the entries: the accepted rules and an issue for each other entry |
| `KeybindingConfig.CompileResolvedConfig` | packages/shared/src/keybindings.ts:270-281 | the loop over the rules compiles each and keeps the last 256 |
| `KeybindingConfig.Keybindings.LoadConfigState` | apps/server/src/keybindings.ts:460-476 | the cached state, or the one read from the file |
| `KeybindingConfig.Keybindings.RevalidateAndEmit` | apps/server/src/keybindings.ts:478-484 | drops the cache and reads the file |
| `KeybindingConfig.Keybindings.UpsertRule` | apps/server/src/keybindings.ts:647-686 | replaces or adds a rule at the end, capped, in file and cache; nothing changes if the file is malformed |
| `KeybindingConfig.Keybindings.RemoveRule` | apps/server/src/keybindings.ts:687-706 | removes the rules equal to the target from file and cache |
| `KeybindingConfig.Keybindings.SyncDefaultsOnStartup` | apps/server/src/keybindings.ts:486-574 | writes the defaults to a missing file, or appends those that are missing and free of conflicts |
| `KeybindingConfig.MergeIsWellMerged` | apps/server/src/keybindings.ts:216-233 | the merged list has at most 256 bindings, the custom ones last and complete, before them only defaults of commands that are not customized |
| `KeybindingConfig.UpsertCoherentIff` | apps/server/src/keybindings.ts:647-686 | an upsert leaves cache and file in agreement exactly if reading accepts the rule |
| `KeybindingDefaults.UnreadableUpsertIsIncoherent` | apps/server/src/keybindings.ts:647-686 | an input on which it does not: a rule whose key is a modifier alone |
| `KeybindingConfig.EveryRunIsCoherent` | apps/server/src/keybindings.ts:460-574 | the cache agrees with the file after any run whose upserts are acceptable |
| `KeybindingConfig.RunsServeTheFile` | apps/server/src/keybindings.ts:460-574 | and its bindings are well merged |
| `KeybindingConfig.LastUpsertWins` | apps/web/src/keybindings.ts:193-209 | the rule upserted last wins every event it matches |
| `KeybindingConfig.RemoveUndoesUpsert` | apps/server/src/keybindings.ts:647-706 | removing a rule just added gives the file back |
| `KeybindingConfig.UpsertWrites` | apps/server/src/keybindings.ts:647-671 | an upsert writes the accepted rules without the one replaced, in order, and the new one behind; the last 256 of them |
| `KeybindingConfig.UpsertReplaces` | apps/server/src/keybindings.ts:653-664 | so the replaced rule is gone, the new one is last and there once, and with room left nothing else goes |
| `KeybindingConfig.RemoveWrites` | apps/server/src/keybindings.ts:687-706 | a removal writes the accepted rules without the target, in order |
| `KeybindingConfig.SyncOfOddFiles` | apps/server/src/keybindings.ts:486-511 | a startup sync writes the defaults to a missing file and leaves one alone that is malformed or has issues |
| `KeybindingConfig.SyncAdds` | apps/server/src/keybindings.ts:512-574 | to any other file it adds, behind what is there, exactly the defaults whose command and context nothing in the file has |
| `KeybindingDefaults.DefaultModD` | packages/shared/src/keybindings.ts:21-44 | of the default bindings, "mod+d" (Meta on a Mac, Ctrl elsewhere) splits the terminal exactly under terminal focus, and shows the diff otherwise |
| `KeybindingConfig.SyncStableIff` | apps/server/src/keybindings.ts:486-574 | for every file: a second startup sync changes it exactly if the first wrote a list that reads back whole and in which a default is missing again |
| `KeybindingConfig.SyncIsIdempotent` | apps/server/src/keybindings.ts:486-574 | so it never does if the first dropped nothing |
| `KeybindingDefaults.TruncatingSyncIsNotIdempotent` | apps/server/src/keybindings.ts:560-571 | an input on which it does, under the rules and the default keybindings of the source: the oldest of 256 rules holds the keys of a default |
| `KeybindingDefaults.LettersShareContextIff` | apps/server/src/keybindings.ts:113-126 | keys of "mod" and a letter share a shortcut context exactly if the letter is the same |
| `KeybindingDefaults.DefaultCommands` | packages/shared/src/keybindings.ts:21-44 | each of the two commands that this uses belongs to one default only |
| `UpdateController.StepKeepsInv` | apps/desktop/src/updateMachine.ts:32-166 | each action and event keeps the state sound |
| `UpdateController.EveryRunIsSound` | apps/desktop/src/updateMachine.ts:32-166 | in every run: a downloaded version is the available one, an available version belongs to the channel, a percent is shown only while downloading or downloaded, a failure has a message, and nothing in progress shows a message or offers a retry |
| `UpdateController.ReportedCheckIsOver` | apps/desktop/src/main.ts:1235-1260 | in every run, once a check has reported, "checking" is no longer shown |
| `UpdateController.NightlyVersionReads` | apps/desktop/src/updateChannels.ts:3-18 | a version of the nightly form belongs to that channel |
| `UpdateController.OnlyNightlyVersions` | apps/desktop/src/updateChannels.ts:3-18 | and only such versions do |
| `UpdateController.BelongsToOneChannel` | apps/desktop/src/updateChannels.ts:3-18 | each version belongs to exactly one channel, the nightly one exactly if it has that form |
| `UpdateController.Perform` | apps/desktop/src/main.ts:1235-1317 | each action and event handler of the controller object, taken as it is possible, is the step of the world and keeps the state sound |
| `UpdateController.Drive` | apps/desktop/src/main.ts:1195-1429 | a new controller object driven through any possible run ends where the run says, and is sound |
| `UpdateController.ChannelStaysInFlight` | apps/desktop/src/main.ts:1904-1911 | over any stretch of any run with an action in flight throughout, the channel stays |
| `UpdateController.DownloadedHasVersionIff` | apps/desktop/src/updateMachine.ts:155-166 | a step breaks "downloaded has a version" exactly if an installation fails when no version is downloaded any more |
| `UpdateController.DownloadedAlwaysHasVersion` | apps/desktop/src/updateMachine.ts:155-166 | it holds in every run without a channel change or check outcome during an installation |
| `UpdateController.DisturbedInstallLosesVersion` | apps/desktop/src/main.ts:1295-1316 | a run in which it fails: quit, switch the channel, then the installation throws |
| `UpdateController.ProgressIsShown` | apps/desktop/src/updateState.ts:3-19 | at every point of every run, the percent shown while downloading is not a tenth behind the one last reported, and 100 is shown once reported |
| `UpdateController.FailedDownloadCanBeRetried` | apps/desktop/src/updateState.ts:21-29 | a failed download leaves its version available to be tried again |
| `HistoryBootstrap.IncludeNewest` | apps/web/src/historyBootstrap.ts:93-108 | the first loop includes the newest blocks one by one while they fit |
| `HistoryBootstrap.TrimToFit` | apps/web/src/historyBootstrap.ts:110-138 | the final loop drops the oldest block until the text fits |
| `HistoryBootstrap.NothingTrimmed` | apps/web/src/historyBootstrap.ts:110-138 | after the first loop it never drops one |
| `HistoryBootstrap.BuildBootstrapInput` | apps/web/src/historyBootstrap.ts:60-139 | the budget is kept, every message counted, the included ones the greedy newest suffix, and truncation reported |
| `HistoryBootstrap.PackedIsUnique` | apps/web/src/historyBootstrap.ts:60-139 | these requirements determine the result |
| `HistoryBootstrap.MoreBudgetIncludesMore` | apps/web/src/historyBootstrap.ts:60-139 | a larger budget never includes fewer messages |
| `HistoryBootstrap.UntruncatedIsWhole` | apps/web/src/historyBootstrap.ts:127-129 | an untruncated result frames every block and the prompt |
| `HistoryBootstrap.GreedyIsLargestIff` | apps/web/src/historyBootstrap.ts:95-138 | for any messages: the included ones are as many of the newest as can fit, exactly unless the whole transcript fits and does not fit without its oldest message |
| `HistoryBootstrap.GreedyNeedNotBeLargest` | apps/web/src/historyBootstrap.ts:95-107 | an input on which they are not: two short messages that fit together, though one with the summary does not |
| `HistoryBootstrap.BlockIsLines` | apps/web/src/historyBootstrap.ts:35-55 | a block is the role, the text and the summary of images, each on a line of its own and left out if there is none |
| `HistoryBootstrap.SummaryOf` | apps/web/src/historyBootstrap.ts:20-33 | the summary tells the first three images by name, in order, and how many more there are |
| `HistoryBootstrap.BodyIsParagraphs` | apps/web/src/historyBootstrap.ts:97-104 | the transcript is the summary of what is omitted, if anything is, and the blocks, as paragraphs |
| `HistoryBootstrap.LayoutIsParagraphs` | apps/web/src/historyBootstrap.ts:51-58 | the whole text is the preamble, the transcript and the prompt, each under its header |
| `ReleaseTags.CompareStableVersions` | scripts/resolve-previous-release-tag.ts:46-69 | the loop over identifiers computes the comparison |
| `ReleaseTags.IdentifiersAreOrdered` | scripts/resolve-previous-release-tag.ts:27-44 | comparing identifiers is a total preorder if the text order is |
| `ReleaseTags.StableVersionsAreOrdered` | scripts/resolve-previous-release-tag.ts:46-69 | comparing stable versions is one too |
| `ReleaseTags.NightlyVersionsAreOrdered` | scripts/resolve-previous-release-tag.ts:92-98 | and comparing nightly versions |
| `ReleaseTags.LongerPrereleaseIsLater` | scripts/resolve-previous-release-tag.ts:58-66 | a pre-release that continues another comes later |
| `ReleaseTags.StablePrecedence` | scripts/resolve-previous-release-tag.ts:46-69 | a stable version compares below another exactly if it precedes it: by the first number that differs, a pre-release before its release, pre-releases by the first identifier that differs or the shorter list |
| `ReleaseTags.NightlyPrecedence` | scripts/resolve-previous-release-tag.ts:92-98 | a nightly version compares below another exactly if the first of its five numbers that differs is smaller |
| `ReleaseTags.StableTagReads` | scripts/resolve-previous-release-tag.ts:71-90 | a tag of the stable form is read as its numbers and identifiers, and not at all if it is a nightly |
| `ReleaseTags.OnlyStableTagsRead` | scripts/resolve-previous-release-tag.ts:71-90 | and only tags of that form are |
| `ReleaseTags.NightlyTagReads` | scripts/resolve-previous-release-tag.ts:100-116 | a nightly tag of the current or the older form is read as its five numbers |
| `ReleaseTags.OnlyNightlyTagsRead` | scripts/resolve-previous-release-tag.ts:100-116 | and only such tags are |
| `ReleaseTags.SortIsDescending` | scripts/resolve-previous-release-tag.ts:134 | the sort is a descending permutation |
| `ReleaseTags.PreviousIsFirstGreatest` | scripts/resolve-previous-release-tag.ts:118-152 | the resolver returns the first of the greatest tags strictly below, and nothing exactly if there is none |
| `ReleaseTags.FirstGreatestIsUnique` | scripts/resolve-previous-release-tag.ts:118-152 | there is only one such tag |
| `ReleaseTags.PreviousStableTag` | scripts/resolve-previous-release-tag.ts:123-137 | the same for stable tags, for any text order |
| `ReleaseTags.PreviousNightlyTag` | scripts/resolve-previous-release-tag.ts:140-151 | the same for nightly tags |
| `ReleaseTags.PreviousStableIsNearest` | scripts/resolve-previous-release-tag.ts:118-138 | if some stable tag precedes the current one, the previous tag precedes it too, and is preceded by or level with every other such tag |
| `ReleaseTags.PreviousNightlyIsNearest` | scripts/resolve-previous-release-tag.ts:140-151 | the same for nightly tags, by their five numbers |
| `ReleaseTags.StableTagsAreNotNightly` | scripts/resolve-previous-release-tag.ts:71-116 | no tag is both a stable and a nightly release |
| `RigBinding.ScanBlock` | scripts/gascity-runner.ts:390-402 | the inner loop: where a block ends, whether it names the rig, and its last path line |
| `RigBinding.RewriteLines` | scripts/gascity-runner.ts:387-415 | the outer loop rewrites the first block that names the rig |
| `RigBinding.ReplaceOrAppendRigBinding` | scripts/gascity-runner.ts:383-416 | the text is rewritten as specified, or the binding appended |
| `RigBinding.RewriteIsMapUpdate` | scripts/gascity-runner.ts:383-416 | the text then says the new path of the rig, and of any other what it said before if the block names no other |
| `RigBinding.RewriteIsIdempotent` | scripts/gascity-runner.ts:383-416 | repeating the call changes nothing |
| `RigBinding.RewriteChangesOneLine` | scripts/gascity-runner.ts:407-413 | a rewrite changes one line or puts one in |
| `YamlLines.EnsureYamlScalarLines` | scripts/gascity-runner.ts:470-484 | the loop over the entries sets or adds a line each |
| `YamlLines.EnsureSets` | scripts/gascity-runner.ts:470-484 | the file then says of each entry's key what the entry says |
| `YamlLines.EnsureKeepsOthers` | scripts/gascity-runner.ts:470-484 | and of every other key what it said before |
| `YamlLines.EnsureIsIdempotent` | scripts/gascity-runner.ts:470-484 | setting the same entries again changes nothing |
| `YamlLines.ContentLinesJoin` | scripts/gascity-runner.ts:470-473 | the lines read from a file are the file again, one line break at its end aside |
| `YamlLines.SourceEntriesAreLegalIff` | scripts/gascity-runner.ts:474-476 | the entries of the source meet what these need exactly if keys are distinct, have no colon and no leading white space, and keys and values no line break |
| `ListeningDetector.ServerListeningDetector.Push` | apps/desktop/src/serverListeningDetector.ts:36-51 | after any pushes without a failure, resolved exactly if the fragment occurs in all that was pushed, and while waiting the kept buffer is bounded; once settled, nothing changes |
| `ListeningDetector.ServerListeningDetector.Fail` | apps/desktop/src/serverListeningDetector.ts:53-55 | settles; the first failure rejects exactly if the fragment had not come before it |
| `ListeningDetector.ResolvedIff` | apps/desktop/src/serverListeningDetector.ts:36-51 | before any failure it has resolved exactly if the fragment occurs in all the text so far without carriage returns; the waiting buffer is bounded |
| `ListeningDetector.ChunkingDoesNotMatter` | apps/desktop/src/serverListeningDetector.ts:36-51 | how the text was cut into chunks does not matter |
| `ListeningDetector.StrippedHasNoReturns` | apps/desktop/src/serverListeningDetector.ts:41-42 | the text searched holds no carriage return |
| `ListeningDetector.OccursIff` | apps/desktop/src/serverListeningDetector.ts:43 | to occur is to be what stands between two other parts of the text |
| `ListeningDetector.SettlesOnce` | apps/desktop/src/serverListeningDetector.ts:19-33 | once settled, nothing changes |
| `ListeningDetector.FailureSettles` | apps/desktop/src/serverListeningDetector.ts:53-55 | a failure rejects exactly if the fragment had not come before it |

## Left out

- File system, JSON and schema decoding, watchers, change streams and spans: files and stores are values, effects succeed, and a written file decodes to what was written.
- Errors are reduced to their kind (and line, for manifests); their texts are not modelled.
- Unicode case folding, so key strings and key events are lower-cased in ASCII only; the locale's text comparison, which is a parameter.
- Floating-point numbers: manifest numbers are exact decimals (no exponents, no rounding), file sizes and version numbers are unbounded.
- Surrogate pairs and text encoding: chunks, secrets and settings are texts, decoded without loss; a character split between two chunks is not modelled.
- `applyServerSettingsPatch` and the normalization of settings: an update takes arbitrary patched settings.
- The schema's check of a compiled keybinding rule, which is a parameter.
- `SettingsSecrets.SettingsService.UpdateSettings`: the decoding of the persisted settings, which can reject them when the store has already changed, and the fallback of the text-generation provider on what is returned are not modelled.
- `SettingsSecrets.EveryRunKeepsInv`: starts from empty settings; a file edited by hand can hold secrets until the next update.
- `UpdateManifest.RoundTripIff`: numbers among the extras are taken as a reader holds them, without superfluous zeros.
- `SecretNames.UnrestrictedNamesCollide`: speaks of names that the schema refuses, so no caller can pass them.
- `YamlLines.EnsureIsIdempotent`: keys have no colon and no leading white space, and every line is one line, as with the keys and values the script uses.
- `RigBinding.RewriteIsMapUpdate`: names and paths are one line each.
- `ComposerSegments.SplitPrompt`: the visitor of a prompt never stops early, as in splitting; the mention-boundary test of selections is not modelled.
- The Electron windows, menus and IPC around the update controller, its timers and log milestones.
- Draining of reactors and the phases of startup around the command gate.
- Labels and hints of shortcuts, terminal navigation keys, and the rest of the scripts: linear scans or single branches.
