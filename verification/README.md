# OttoClaw: a verified model of the messaging, storage and agent core

This project models the stateful Go core of OttoClaw (`ottoclaw/pkg`) in Dafny and proves what that
core is for: messages are split without losing text or breaking code blocks, sessions survive
crashes, the requests sent to a language model always have their tool calls paired with results,
the cached system prompt agrees with the files, scheduled jobs fire as often as they should, and the
bus, the session lock and the media index stay consistent under concurrency. `dafny verify
dfyconfig.toml` checks everything.

## How the modules fit together

- **Splitting and delivery.** `FenceText` has trimming, searching and fence counting; `Splitter` one
  pass of the splitting loop as a function of the text still to be sent, and what every run keeps;
  `Preservation` where each rune of a chunk comes from; `Divergence` how sharp the termination
  condition is; `SplitMessageLoop` the loop itself on a rune slice; `CutPlaces` where the cuts lie, said of
  the runes alone; `OutboundWorker` the queue, the retries, and what is stopped, undone and edited
  before a piece is sent.
- **Session store.** `SessionLog` is one session as a log and a metadata file, each operation as its
  disk steps; `JsonlStore` the directory of sessions, the class whose methods take those steps, and
  its refinement of a map; `TornLog` drops the assumption that an append is all-or-nothing;
  `AtomicFile` justifies the assumption that a rewrite is, on a file system that can lose power;
  `Migration` moves legacy files into the store, in one namespace of files so that the two directories
  may be the same.
- **Agent.** `Transcript` has the sanitizer and the class of histories it can repair; `AgentTurn`
  the events of a turn and what each of its requests contains; `AgentLoop` the loop that builds,
  compresses and sends them; `PromptCache` the argument why an unchanged check means an up-to-date
  prompt; `PromptContents` what a prompt holds, and where; `ContextBuilding` baseline, build and check
  themselves.
- **Scheduler.** `Cron` has the critical sections and the service; `CronRuns` all interleavings of
  its events, and what no run can break; `CronFiring` that jobs do fire.
- **Concurrent state.** `Bus`, `SessionLock` and `Media`.
- `Options`, `Messages` and `Sequences` are shared.

Where the source changes state the model does: methods over fields, proved equal to a specification
function or predicate whose properties are lemmas. Operations that other goroutines, other
processes or a crash can interrupt record every intermediate state in a ghost trace (`JSONLStore`,
`FileSystem`, `Migrator`), or are state machines over atomic steps whose calls yield to any number
of other steps (`Bus`, `SessionLock`, `CronRuns`), or look at a world that moves on by itself before
each look (`ContextBuilder`, `ChannelWorker`, `AgentLoop.Session`).

## Hypotheses

Stated as `requires` clauses, because the code does not check them:

- Splitting ends when the content fits, has no fence, the limit is below 5, or the limit is at least
  10 and every fence followed by a newline is at most maxLen - 7 runes before it (`Splittable`); the
  loop itself, and the worker, are proved for every content on which it ends (`Ends`); balance needs
  a limit of at least 10, an even number of fences, and fences of three backticks at line starts
  (`Balanced`).
- Store refinement is for keys that share no files and messages whose lines stay below the scanner
  limit.
- Migration's crash claim is for a legacy directory apart from the store's and renames that succeed;
  in a shared directory a restart would list the metadata files that the stopped run has created. The
  claims about contents are for files whose keys share no session files.
- The prompt cache needs every write to get a modification time above all earlier ones, and no
  tracked file to be created and deleted again within the window from baseline to check.
- Scheduled jobs: a clock that does not go back, saves that succeed, job ids that are fresh. That an "at"
  job fires needs a run without the events that lose it: its removal, its disabling, a start or an
  enabling after its time, and a crash between its collection and its call. Spacing also needs
  one loop at a time and a period that stays in the int64 range.
- Mutual exclusion on a session needs holders that return within the TTL of their own timestamp.
- Media refs are new when they are registered.

## Where the code differs from its documentation

- `split.go` promises chunks that respect the limit. They do, but for a block whose header has more
  than maxLen - 7 runes and that does not close within the limit the loop never ends
  (`Divergence.EndsIffHeaderFits`).
- `bus.go` drains "so messages aren't silently lost": drained messages are only counted, and a
  message can stay behind exactly when a publish call is past its first load (`Bus.LeavesBehindIff`).
- `file.go` lists the directory sync before the rename and says a temporary file is always cleaned
  up; the code syncs after the rename and ignores a failing sync, after which the old content can come
  back (`AtomicFile.DurableIffDirectorySynced`), and a failing removal, after which the temporary file
  stays (`AtomicFile.ReplaceResult`).
- `migration.go` calls itself idempotent because migrated files are ignored; metadata files of the
  store carry the same suffix as legacy files, so in a shared directory it is idempotent only under
  an exact condition (`Migration.SecondRunChangesNothingIff`), and it destroys the sessions whose
  metadata it comes upon (`Migration.MetadataFileLosesSession`).
- `forceCompression` assumes that the first message is the system prompt; session histories start
  with whatever a truncation left, and the proof covers any first message.
- The takeover of a session lock is meant for crashed holders; a slow one is enough, and nothing less
  (`SessionLock.ExclusionFailsIff`).
- The worker sends an empty message although splitting gives it no chunk
  (`OutboundWorker.PiecesAreChunks`).

## Model

| member | source | states |
|---|---|---|
| FenceText.FindLastIsLast | ottoclaw/pkg/channels/split.go:188-208 | a windowed backward search finds the last newline (or blank) of the window, or reports none exactly when the window has none |
| FenceText.NextClosingIsFirst | ottoclaw/pkg/channels/split.go:166-173 | the forward search returns the end of the first fence at or after the start, or none exactly when there is none |
| FenceText.OpenMeansOdd | ottoclaw/pkg/channels/split.go:144-162 | the unclosed-block scan answers exactly when the range holds an odd number of fences, and then with a fence of that range |
| FenceText.FencesSplit | ottoclaw/pkg/channels/split.go:144-162 | greedy fence counts add up across any cut that does not fall inside or directly against a run of backticks |
| Splitter.EffectiveLimit | ottoclaw/pkg/channels/split.go:25-42 | the preferred end lies within the limit and, for limits of at least 10, keeps five runes for a closing fence |
| Splitter.CutBounds | ottoclaw/pkg/channels/split.go:44-131 | for every positive limit: a kept chunk is neither empty nor longer than the limit, and a cut inside a block comes only with limits of at least 5 and leaves room for the closing fence |
| Splitter.OpenNeedsRoom | ottoclaw/pkg/channels/split.go:53-56 | no slice of the last resort is ever out of range: a fence is open at the natural end only for limits of at least 5 |
| Splitter.HeaderIsSlice | ottoclaw/pkg/channels/split.go:67-77 | the header is a newline-free slice of the text from its fence on, at least the fence itself, and ends by the end of its line |
| Splitter.BetterEndIsLater | ottoclaw/pkg/channels/split.go:81-90 | for limits of at least 10 the newline searched for up to maxLen - 5 is never before the natural end found earlier |
| Splitter.ReopenFacts | ottoclaw/pkg/channels/split.go:53-121 | a re-opening cut belongs to the fence that is open at the natural end, comes only when no closing fence fits in the limit, and for limits of at least 10 no earlier than that end |
| Splitter.ChunkBounds | ottoclaw/pkg/channels/split.go:32-139 | every chunk of every run, ending or not, has between 1 and maxLen runes |
| Splitter.IterationShrinks | ottoclaw/pkg/channels/split.go:32-137 | each pass leaves strictly less text, and text of the same kind, also when a header is re-opened in front of it and the index returns to 0 |
| Splitter.Terminates | ottoclaw/pkg/channels/split.go:32-137 | the loop ends within one pass per rune for texts that fit, for limits below 5, for texts without a fence, and (limit at least 10) for texts with every newline at most maxLen - 7 runes behind a fence |
| Divergence.NeverEnds | ottoclaw/pkg/channels/split.go:64-121 | a text that begins with a block keeps the loop running for ever if the header is longer than maxLen - 7 and no other fence ends within the limit, whatever follows, for every limit of at least 5 |
| Divergence.EndsIffHeaderFits | ottoclaw/pkg/channels/split.go:53-121 | for a text with one block, closed or not, and every limit of at least 5, the loop ends if and only if the header is at most maxLen - 7 runes long or the block closes within the limit |
| Divergence.ShortHeaderEnds | ottoclaw/pkg/channels/split.go:64-121 | with a header that fits the loop ends on such a text, however long the line behind the closing fence is |
| Splitter.BeforeBlock | ottoclaw/pkg/channels/split.go:101-108 | with fences at line starts, splitting before a block happens at the newline in front of its fence and is possible exactly when the fence is not within the first two runes |
| Splitter.CutParity | ottoclaw/pkg/channels/split.go:53-131 | in a balanced text no cut breaks a fence, and a chunk is kept exactly when the fences in front of the cut are even in number |
| Splitter.KeepBalances | ottoclaw/pkg/channels/split.go:58-63 | a kept chunk and the rest behind it both have an even number of fences |
| Splitter.ReopenBalances | ottoclaw/pkg/channels/split.go:80-120 | closing a chunk and re-opening the header in front of the rest leaves both with an even number of fences, each at a line start |
| Splitter.ChunksBalanced | ottoclaw/pkg/channels/split.go:32-139 | for limits of at least 10 every chunk of a balanced text has an even number of fences, through all four paths |
| Preservation.IterationPiece | ottoclaw/pkg/channels/split.go:65-136 | one pass turns the text still to be sent into a chunk of injected header runes, consecutive content runes and perhaps a closing fence, skipping only whitespace |
| Preservation.ContentPreserved | ottoclaw/pkg/channels/split.go:65-139 | the chunks are made of consecutive runs of the content in order, with nothing but whitespace left out, plus runes of re-opened headers of the content and closing fences |
| Preservation.CopiedSpellsContent | ottoclaw/pkg/channels/split.go:65-139 | the copied runes, in order, spell the non-space runes of the content exactly |
| Preservation.UnfencedInjectsNothing | ottoclaw/pkg/channels/split.go:127-136 | without a fence in the content nothing is injected: every chunk is a substring of it |
| SplitMessageLoop.FindLastInRange | ottoclaw/pkg/channels/split.go:188-208 | the backward scan, by window and rune class |
| SplitMessageLoop.FindLastUnclosedCodeBlockInRange | ottoclaw/pkg/channels/split.go:144-162 | the scan with its open flag and last open index finds the unclosed fence of the range |
| SplitMessageLoop.FindNextClosingCodeBlockInRange | ottoclaw/pkg/channels/split.go:166-173 | the scan finds the end of the next fence |
| SplitMessageLoop.FindNewlineFrom | ottoclaw/pkg/channels/split.go:177-184 | the scan finds the next newline |
| SplitMessageLoop.FindBlockCut | ottoclaw/pkg/channels/split.go:64-123 | the branch for a block that does not close within the limit, on the absolute indices of the rune slice |
| SplitMessageLoop.SplitMessage | ottoclaw/pkg/channels/split.go:13-140 | for every content on which the loop ends at all, the loop over rune slice and start index, rebuilding the slice, returns exactly the chunks of the text; a limit of 0 or less returns the content unsplit |
| SplitMessageLoop.EmittedStable | ottoclaw/pkg/channels/split.go:32-139 | once nothing is pending further passes add no chunk and leave nothing pending |
| SplitMessageLoop.SplitIs | ottoclaw/pkg/channels/split.go:32-139 | the chunks of a text on which the loop ends do not depend on how many passes are counted |
| CutPlaces.EffectiveLimitIs | ottoclaw/pkg/channels/split.go:25-42 | the room kept for closing a block: a tenth of the limit, at least 50 runes, at most half of the limit |
| CutPlaces.NaturalEndRunes | ottoclaw/pkg/channels/split.go:44-51 | rune by rune: a chunk ends at the last newline of its last 200 runes, else at the last space or tab of its last 100, else at its limit, and never at its first rune |
| CutPlaces.CutIs | ottoclaw/pkg/channels/split.go:44-131 | every cut of the loop, said of the runes of the text: the natural end, or for a fence open there the end of the first closing fence that fits, or a newline or the limit inside the block, or in front of it |
| CutPlaces.HeaderIs | ottoclaw/pkg/channels/split.go:67-77 | the header re-opened is the line of the open fence without the whitespace around it |
| CutPlaces.ReopeningPass | ottoclaw/pkg/channels/split.go:90-121 | a pass that splits inside a block sends the text up to the cut, trimmed, with a closing fence, and goes on with the header line and the text from the cut |
| CutPlaces.UnfencedSplitsNaturally | ottoclaw/pkg/channels/split.go:32-139 | SplitMessage cuts a content without a fence exactly at its natural ends, each chunk beginning at the first rune that is no whitespace behind the one before it |
| OutboundWorker.PiecesAreChunks | ottoclaw/pkg/channels/manager.go:483-497 | what the worker sends for a message is exactly its SplitMessage chunks unless the content is empty, which is sent once although it has no chunk |
| OutboundWorker.PieceBounds | ottoclaw/pkg/channels/manager.go:483-497 | every piece for a limited channel has at most maxLen runes and is empty only for an empty message |
| OutboundWorker.PiecesKeepContent | ottoclaw/pkg/channels/manager.go:483-497 | what the worker sends for a message spells its content up to whitespace if the content is splittable, and every piece of a balanced content is balanced |
| OutboundWorker.DeliveredInOrder | ottoclaw/pkg/channels/manager.go:474-505 | what is delivered is a subsequence, in order, of the flattened pieces, whatever fails |
| OutboundWorker.AllDelivered | ottoclaw/pkg/channels/manager.go:474-505 | if no piece fails or is cancelled everything is delivered |
| OutboundWorker.LogBounds | ottoclaw/pkg/channels/manager.go:507-562 | over a whole queue Send is called at most maxRetries + 1 times per piece, and the messages that arrive, by a Send or an edit and with the chat they were for, are exactly those that count as delivered, in order |
| OutboundWorker.PreparedFirst | ottoclaw/pkg/channels/manager.go:507-522 | before the first Send of a piece, and once each, the typing stop and the reaction undo found for its chat are called and the placeholder found is tried if the channel can edit; nothing else is, and the Sends follow |
| OutboundWorker.ActionsOfPiece | ottoclaw/pkg/channels/manager.go:474-505 | the actions of each piece stand in the log of a run in one stretch, in the order of the pieces |
| OutboundWorker.ChannelWorker.PreSend | ottoclaw/pkg/channels/manager.go:132-162 | the typing indicator of the chat is stopped, its reaction undone and its placeholder tried and consumed, in this order, with the records of other chats left alone; an edit succeeds only on an editor channel with a recorded, non-empty placeholder |
| OutboundWorker.ChannelWorker.SendWithRetry | ottoclaw/pkg/channels/manager.go:507-562 | the actions of one piece are those its visit says: none if it was cancelled at the limiter; else the preparation by the records found then, and Sends that begin with these records consumed for the chat, unless the placeholder found took the edit; the Sends are transient failures, then a success, a permanent failure, the last retry or a cancellation, where a fired timer may win |
| OutboundWorker.ChannelWorker.RunWorker | ottoclaw/pkg/channels/manager.go:474-505 | every piece of every message taken has its visit, in order, also behind failed ones, and the log is exactly the actions of these visits; without cancellation nothing of the queue is left out |
| SessionLog.ValidKept | ottoclaw/pkg/memory/jsonl.go:218-268 | Skip never exceeds the line count after any disk step of any operation |
| SessionLog.OpRefines | ottoclaw/pkg/memory/store.go:11-42 | each completed operation does to (history, summary) what the interface promises: append, replace, keep the last k (none for k <= 0), set the summary, nothing for Compact |
| SessionLog.OpKeepsClean | ottoclaw/pkg/memory/jsonl.go:218-456 | a completed operation leaves a log of readable lines whose history is read without an error |
| SessionLog.TruncateRefines | ottoclaw/pkg/memory/jsonl.go:327-361 | truncation keeps exactly the last k messages |
| SessionLog.TruncateWithCorruption | ottoclaw/pkg/memory/jsonl.go:327-361 | with unreadable lines in the log truncation still yields a suffix of at most k messages, none for k <= 0 |
| SessionLog.CompactRefines | ottoclaw/pkg/memory/jsonl.go:402-441 | Compact changes neither history nor summary and is idempotent, also with unreadable lines in the log |
| SessionLog.CompactReclaims | ottoclaw/pkg/memory/jsonl.go:396-439 | a compaction with something to skip leaves a log of exactly the live messages and no offset |
| SessionLog.CountIsLines | ottoclaw/pkg/memory/jsonl.go:339-348 | the count is that of the lines after every completed truncation, replacement and compaction, whatever it was, and stays so otherwise |
| SessionLog.CrashRecovery | ottoclaw/pkg/memory/jsonl.go:218-268 | after a crash between any two disk steps the history is the old one, the intended new one, or, for SetHistory and Compact only, all readable old lines with the old history as their end |
| SessionLog.RecoveredReads | ottoclaw/pkg/memory/jsonl.go:270-290 | the recovered history is read without an error unless a line passes the scanner limit |
| SessionLog.RunKeepsValid | ottoclaw/pkg/memory/jsonl.go:363-439 | Skip stays within the log over any run with any number of crashes |
| SessionLog.RunKeepsHistory | ottoclaw/pkg/memory/jsonl.go:363-439 | no live message is lost, and none moves, through any run of appends, summaries, compactions and unfinished replacements with any number of crashes |
| JsonlStore.SharedFiles | ottoclaw/pkg/memory/jsonl.go:87-97 | two keys share their files exactly when they differ only in colons against underscores |
| JsonlStore.JSONLStore.ReadMessages | ottoclaw/pkg/memory/jsonl.go:131-176 | the scanning loop skips the first lines unparsed, passes over unreadable ones and fails on an over-long one |
| JsonlStore.JSONLStore.CountLines | ottoclaw/pkg/memory/jsonl.go:181-200 | counts the lines, or fails on an over-long one |
| JsonlStore.JSONLStore.RewriteLog | ottoclaw/pkg/memory/jsonl.go:443-456 | replaces the log by one line per message |
| JsonlStore.JSONLStore.AddMsg | ottoclaw/pkg/memory/jsonl.go:218-268 | the line first, then the metadata with the new count: exactly the disk states of the specification |
| JsonlStore.JSONLStore.GetHistory | ottoclaw/pkg/memory/jsonl.go:270-290 | the messages behind the skip offset |
| JsonlStore.JSONLStore.GetSummary | ottoclaw/pkg/memory/jsonl.go:292-304 | the summary of the metadata, empty without metadata |
| JsonlStore.JSONLStore.SetSummary | ottoclaw/pkg/memory/jsonl.go:306-325 | one metadata write that changes only the summary |
| JsonlStore.JSONLStore.TruncateHistory | ottoclaw/pkg/memory/jsonl.go:327-361 | recounts the lines, then one metadata write; fails without a write exactly when a line is over-long |
| JsonlStore.JSONLStore.SetHistory | ottoclaw/pkg/memory/jsonl.go:363-400 | the reset metadata first, then the log |
| JsonlStore.JSONLStore.Compact | ottoclaw/pkg/memory/jsonl.go:402-441 | nothing when nothing is skipped, otherwise the reset metadata and then the active messages as the log |
| JsonlStore.CallFiles | ottoclaw/pkg/memory/jsonl.go:79-97 | an operation changes the files of its own key only |
| JsonlStore.StoreRefines | ottoclaw/pkg/memory/store.go:11-42 | without crashes, over any run of calls on keys that share no files, every session reads as the map from key to (messages, summary) says |
| JsonlStore.NewStoreRefines | ottoclaw/pkg/memory/jsonl.go:62-68 | a store that starts empty is the map of sessions that starts empty |
| TornLog.TailMeansTear | ottoclaw/pkg/memory/jsonl.go:223-253 | an unterminated tail is there exactly when the last event that wrote anything was a torn append |
| TornLog.MissingIffAfterTear | ottoclaw/pkg/memory/jsonl.go:131-176 | an acknowledged message is missing from every later read if and only if its append came directly after a tear, with nothing written in between |
| TornLog.MissingAtMostTears | ottoclaw/pkg/memory/jsonl.go:223-253 | the acknowledged messages missing number at most the torn writes |
| TornLog.HistoryInOrder | ottoclaw/pkg/memory/jsonl.go:131-176 | reads return messages in the order they were written, none twice |
| AtomicFile.AtomicReplace | ottoclaw/pkg/fileutil/file.go:54-121 | at every point, whichever system calls fail, a power loss leaves the file whole: with an old content, or, only in a call that succeeds, with the new one |
| AtomicFile.WithinSurvives | ottoclaw/pkg/fileutil/file.go:20-37 | a file whose possible contents are all synced reads as one of them after a power loss |
| AtomicFile.ReplaceResult | ottoclaw/pkg/fileutil/file.go:54-121 | success shows the new content, failure everything as before, and no other file changes; once opened, the temporary file is visible afterwards if and only if the call failed and its removal failed |
| AtomicFile.ReplacesIff | ottoclaw/pkg/fileutil/file.go:56-119 | the content is replaced exactly when the temporary name is free and every system call up to the rename succeeds, and is then durable if the directory sync succeeds |
| AtomicFile.OtherFilesSafe | ottoclaw/pkg/fileutil/file.go:60-121 | no other file is put at risk by a call |
| AtomicFile.RunSurvives | ottoclaw/pkg/fileutil/file.go:54-121 | after any run of calls with any faults a power loss leaves one of the contents written since the directory was last synced, or one from before |
| AtomicFile.RunLeavesExactly | ottoclaw/pkg/fileutil/file.go:54-121 | and each of these contents can be left: they are exactly what a power loss can leave |
| AtomicFile.DurableIffDirectorySynced | ottoclaw/pkg/fileutil/file.go:107-116 | a successful call is durable if and only if its directory sync succeeds; otherwise the old content can come back |
| AtomicFile.FileSystem.WriteFileAtomic | ottoclaw/pkg/fileutil/file.go:54-121 | create, write, sync, chmod, close, rename, sync the directory, cleaning up on each error path: exactly the states of the specification, and success exactly when no call before the directory sync fails |
| Migration.RedoFile | ottoclaw/pkg/memory/migration.go:58-104 | in a directory apart from the store, starting a file over from any state short of its rename ends where it would have ended |
| Migration.RestartGivesSameEnd | ottoclaw/pkg/memory/migration.go:31-108 | with the legacy directory apart from the store and renames that succeed, a crash after any disk step followed by a new run, which lists the directory again, gives the same store, the same renamed files and the same outcome as one run, also when the run ends in an error |
| Migration.CrashIdempotent | ottoclaw/pkg/memory/migration.go:25-30 | the same for any number of crashes |
| Migration.ListingSuffices | ottoclaw/pkg/memory/migration.go:34-54 | apart from the store, names that were absent when the directory was listed change nothing |
| Migration.RunMigrates | ottoclaw/pkg/memory/migration.go:43-105 | in any directory a complete run writes the session of every waiting file that no other file interferes with, and renames the file; the metadata is gone if it was the file itself |
| Migration.MigratedReads | ottoclaw/pkg/memory/migration.go:77-96 | apart from the store, such a session reads back as the legacy messages, with the legacy summary if there is one |
| Migration.SavedSessionArrives | ottoclaw/pkg/memory/migration.go:42-107 | every session saved as a .json file of the legacy directory reads back from the store, under its own key or else the stem of its name, with its messages and summary, and the file stays as a .migrated backup with its content |
| Migration.Untouched | ottoclaw/pkg/memory/migration.go:43-105 | sessions that no listed file belongs to or is the metadata of are untouched |
| Migration.MetadataFileLosesSession | ottoclaw/pkg/memory/migration.go:42-104 | a metadata file of the store that is in the legacy directory is taken for a session without messages, written over the session and renamed away: messages and summary are both lost |
| Migration.WaitsAfterRun | ottoclaw/pkg/memory/migration.go:42-105 | after a complete run exactly those names wait that it did not list and those metadata files it wrote too late to come to them |
| Migration.SecondRunChangesNothingIff | ottoclaw/pkg/memory/migration.go:25-30 | for every directory, with renames that succeed, a second complete run changes nothing if and only if the two directories differ or every waiting file has the name of its session's metadata listed at or after it |
| Migration.ApartIsIdempotent | ottoclaw/pkg/memory/migration.go:25-30 | apart from the store a complete run leaves no file waiting and a second one changes nothing |
| Migration.CountsWaiting | ottoclaw/pkg/memory/migration.go:42-107 | the number a complete run returns is that of the files that waited |
| Migration.WaitingIff | ottoclaw/pkg/memory/migration.go:43-68 | a name is migrated exactly if it is some stem and .json with a JSON object behind it |
| Migration.HistoryStepsAgree | ottoclaw/pkg/memory/jsonl.go:363-394 | in the shared namespace SetHistory takes the steps of the session model |
| Migration.SummaryStepAgrees | ottoclaw/pkg/memory/jsonl.go:306-325 | and so does SetSummary |
| Migration.Migrator.SetHistory | ottoclaw/pkg/memory/jsonl.go:363-394 | an unreadable metadata file is an error without a write; otherwise the metadata, with the key it already has, and then the log |
| Migration.Migrator.MigrateFile | ottoclaw/pkg/memory/migration.go:44-104 | one pass of the loop goes through exactly the states of the specification, with renames that fail and metadata that cannot be read |
| Migration.Migrator.MigrateFromJSON | ottoclaw/pkg/memory/migration.go:31-108 | the loop goes through exactly the states of a run up to its end or its first error and returns the number of files migrated; a rename that fails is passed over |
| Transcript.SanitizerLaws | ottoclaw/pkg/agent/context.go:615-678 | for every history the result is a subsequence without system messages in which every tool message reaches a tool-calling assistant over tool messages and every tool-calling assistant directly follows a user or tool message |
| Transcript.KeepsWellFormed | ottoclaw/pkg/agent/context.go:621-675 | a message is kept exactly when the result stays well formed with it |
| Transcript.SanitizeFixes | ottoclaw/pkg/agent/context.go:615-678 | nothing is dropped exactly when the history is well formed already |
| Transcript.SanitizeIdempotent | ottoclaw/pkg/agent/context.go:615-678 | sanitizing twice is sanitizing once |
| Transcript.SanitizePrefix | ottoclaw/pkg/agent/context.go:615-678 | the result of a prefix is a prefix of the result |
| Transcript.GroupTogether | ottoclaw/pkg/agent/context.go:631-670 | a tool-calling assistant and its results are kept or dropped together |
| Transcript.ChatIsPaired | ottoclaw/pkg/agent/context.go:615-678 | for any suffix of a paired transcript, with or without one arbitrary message in front, every kept tool-calling assistant is followed by exactly its own results and no tool message appears elsewhere |
| Transcript.ChatSuffix | ottoclaw/pkg/agent/loop.go:1912 | truncation keeps histories in that class |
| Transcript.ChatExtends | ottoclaw/pkg/agent/loop.go:1438-1469 | appending paired messages keeps histories in that class |
| Transcript.CompressKeepsChat | ottoclaw/pkg/agent/loop.go:1667-1716 | compression keeps the class, keeps the newer half and the last message unchanged and adds the note to the first, and strictly shortens any history longer than 4 |
| Transcript.InterruptedGroup | ottoclaw/pkg/agent/loop.go:1578-1630 | a history in which a call was cut off from its results, alone or followed by the next turns, is repaired by the sanitizer if and only if the sanitizer drops the open call |
| AgentLoop.SanitizeHistoryForProvider | ottoclaw/pkg/agent/context.go:615-678 | the loop with its role cases and early continues computes the sanitized history |
| AgentLoop.FindsCalls | ottoclaw/pkg/agent/context.go:636-647 | the backward scan over tool messages |
| AgentLoop.SanitizedRequest | ottoclaw/pkg/agent/context.go:586-598 | one system message followed by the sanitized history is a request with every call paired |
| AgentLoop.CheckpointIsHistory | ottoclaw/pkg/agent/loop.go:971-985 | the messages of a recorded request are again a history of the class |
| AgentLoop.NewestCompressed | ottoclaw/pkg/agent/loop.go:1676-1708 | a history that is the newest part of what was saved, in order and without gaps except for its first message, stays so under compression |
| AgentLoop.Session.Interfere | ottoclaw/pkg/agent/loop.go:1835-1912 | the summarizer truncating at any moment, also between a call and its results, leaves a suffix and keeps the session in the class |
| AgentLoop.Session.ForceCompression | ottoclaw/pkg/agent/loop.go:1667-1716 | the history read is compressed and written back, also over a truncation in between |
| AgentLoop.Session.BuildMessages | ottoclaw/pkg/agent/context.go:586-613 | system message, sanitized history, and the user message unless it is blank |
| AgentLoop.Session.CallWithRetries | ottoclaw/pkg/agent/loop.go:1286-1379 | at most three calls of the model, each of at most one request per candidate; every request sent is paired, also those rebuilt after compression; every context error but a last one leads to a compression, and only a fatal error is given up before the last retry |
| AgentLoop.Session.SendToCandidates | ottoclaw/pkg/providers/fallback.go:101-205 | the fallback chain sends at most one request per candidate and stops at the first success or at an error that ends it |
| AgentLoop.Session.SaveGroup | ottoclaw/pkg/agent/loop.go:1438-1469 | the assistant message with its calls, then one result per call in order, appended to the request, the session and the events of the turn |
| AgentLoop.Session.RunLLMIteration | ottoclaw/pkg/agent/loop.go:1155-1645 | whatever the model, the tools and the summarizer do, every request sent has its calls paired and is the one the events before it leave, what is saved is exactly the groups of the calls the model asked for, the history stays the newest part of it, an answer ends the loop and is returned, and the number of requests is bounded by iterations, retries and candidates |
| AgentLoop.Session.RunAgentLoop | ottoclaw/pkg/agent/loop.go:967-1044 | the requests of a turn are those of its events, which begin with the system message, the sanitized history and the user message unless it is blank; the turn saves the user message first, then exactly the groups, then the final answer or its default, and an answer of the model is never dropped |
| AgentTurn.BeforeCompression | ottoclaw/pkg/agent/loop.go:1001-1009 | every request sent before the first compression of a turn is the first request followed by the groups saved since |
| AgentTurn.NextRequest | ottoclaw/pkg/agent/loop.go:1155-1645 | a later request, without a compression in between, is the earlier one followed by exactly the groups saved in between |
| AgentTurn.RequestAfterGroup | ottoclaw/pkg/agent/loop.go:1438-1469 | so a request behind one group is the request before it and exactly that group |
| AgentTurn.AfterCompression | ottoclaw/pkg/agent/loop.go:1353-1366 | a request behind a compression is the system message, the sanitized compressed history, and the groups saved since |
| AgentLoop.Session.Resume | ottoclaw/pkg/agent/loop.go:971-985 | an empty session is seeded with any checkpoint; the history stays in the class exactly if the checkpoint is in it |
| PromptCache.UnnoticedMeansSame | ottoclaw/pkg/agent/context.go:363-389 | one file that the change check passes has, at the start of the check, the content the build read |
| PromptCache.CacheAgrees | ottoclaw/pkg/agent/context.go:189-227 | if the change check notices nothing, the cached prompt equals a build from scratch at the start of the check, with writes anywhere between and within baseline, build and check |
| PromptCache.StillUnnoticed | ottoclaw/pkg/agent/context.go:336-361 | tracked paths left alone since the baseline give the change check nothing to notice |
| PromptCache.FlickerGoesUnnoticed | ottoclaw/pkg/agent/context.go:363-389 | the excluded case is real: a file created after the baseline and deleted before the check leaves a cached prompt that no fresh build gives |
| PromptContents.PromptIsTiled | ottoclaw/pkg/agent/context.go:154-184 | a prompt is, position by position: the identity, a separator if a bootstrap file was seen, these files in their order with headings and nothing for an absent one, and the sections of skills and memory that are not empty; and nothing else |
| PromptContents.TiledDetermines | ottoclaw/pkg/agent/context.go:154-184 | these texts determine the prompt and the place of each |
| PromptContents.PromptContains | ottoclaw/pkg/agent/context.go:154-184 | every prompt begins with the identity, holds each bootstrap file seen, whole and behind its heading, in the order of the list, holds a non-empty skills summary behind its introduction, and ends in a non-empty memory behind its heading |
| PromptContents.FreshBuildShowsFiles | ottoclaw/pkg/agent/context.go:154-184 | a build from the files at one moment shows the bootstrap files, skill files and memory that are there then |
| ContextBuilding.ContextBuilder.BuildCacheBaseline | ottoclaw/pkg/agent/context.go:282-327 | existence, newest modification time and skill snapshot, each path at its own moment; the time is never the zero time |
| ContextBuilding.ContextBuilder.FileChangedSince | ottoclaw/pkg/agent/context.go:371-389 | the four cases of existence, then the modification time |
| ContextBuilding.ContextBuilder.SkillFilesChangedSince | ottoclaw/pkg/agent/context.go:400-455 | snapshot files gone or with another time, and files outside the snapshot |
| ContextBuilding.ContextBuilder.SourceFilesChanged | ottoclaw/pkg/agent/context.go:336-361 | no answer "unchanged" unless every tracked path was seen unchanged within the check, and no answer "changed" with a cache unless a difference was seen |
| ContextBuilding.ContextBuilder.BuildSystemPrompt | ottoclaw/pkg/agent/context.go:154-184 | every source is read at its own moment, and the parts joined are a prompt with exactly the contents of what was read |
| ContextBuilding.ContextBuilder.LoadBootstrapFiles | ottoclaw/pkg/agent/context.go:457-474 | the loop over the four names collects what the specification of the bootstrap section says |
| ContextBuilding.ContextBuilder.Rebuild | ottoclaw/pkg/agent/context.go:208-226 | baseline before build before caching, so that the cache stays valid evidence |
| ContextBuilding.ContextBuilder.CheckCache | ottoclaw/pkg/agent/context.go:192-206 | a cached prompt that is returned is a fresh build at the start of the check, and it is returned whenever no tracked path was touched since the baseline |
| ContextBuilding.ContextBuilder.BuildSystemPromptWithCache | ottoclaw/pkg/agent/context.go:189-227 | the prompt returned was just built, with the contents of what was read, or agrees with a fresh build at a moment of the call and shows the files of that moment, although others may rebuild or drop the cache between the two locks; nothing is built when there is a cache and no tracked path was touched |
| Cron.DueIdsAre | ottoclaw/pkg/cron/service.go:143-152 | a tick collects exactly the enabled jobs whose next run has come |
| Cron.DueOnce | ottoclaw/pkg/cron/service.go:143-152 | each job at most once per tick |
| Cron.NextRunIsRight | ottoclaw/pkg/cron/service.go:246-280 | an "at" job is armed for its time while that lies ahead and for nothing once it has come; an "every" job for a period from now; a "cron" job for what the library gives; anything else for nothing |
| Cron.ClearRunsIs | ottoclaw/pkg/cron/service.go:154-163 | a tick clears the next run of exactly the due jobs and changes nothing else |
| Cron.RecomputeIs | ottoclaw/pkg/cron/service.go:282-290 | enabled jobs get their right next run, and nothing else changes |
| Cron.SetEnabledIs | ottoclaw/pkg/cron/service.go:430-440 | enabling arms a job for its right next run, disabling clears it, and no other job changes |
| Cron.RanIs | ottoclaw/pkg/cron/service.go:217-239 | after its handler a job has its start and status recorded; an "at" job is disabled, any other is armed for its right next run |
| Cron.FinishJobIs | ottoclaw/pkg/cron/service.go:205-239 | a finished "at" job that deletes itself is gone and the others are kept; any other changes in place, alone |
| Cron.RemoveIdIs | ottoclaw/pkg/cron/service.go:407-425 | removal keeps exactly the other jobs |
| Cron.CronService.CollectDue | ottoclaw/pkg/cron/service.go:135-169 | the locked half of a tick: collects, clears the next runs, saves; nothing when stopped |
| Cron.CronService.ExecuteJobByID | ottoclaw/pkg/cron/service.go:177-244 | the handler is called exactly when the job still exists, and the job list it leaves behind, whatever became of it while the lock was free, gets exactly the state update |
| Cron.CronService.CheckJobs | ottoclaw/pkg/cron/service.go:135-175 | each due job has its handler called, in the order of the list, exactly if it still exists when its turn comes |
| Cron.CronService.FinishExecution | ottoclaw/pkg/cron/service.go:203-244 | state update after a handler: one-shot jobs are deleted or disabled, others rescheduled, and saved; a missing job changes and saves nothing |
| Cron.CronService.Start | ottoclaw/pkg/cron/service.go:82-104 | reload from disk, every enabled job with its right next run, save; nothing when running; a failing load or save is an error and the service does not run |
| Cron.CronService.RecomputeNextRuns | ottoclaw/pkg/cron/service.go:282-290 | the loop recomputes enabled jobs and no others |
| Cron.CronService.AddJob | ottoclaw/pkg/cron/service.go:343-384 | appends and saves an enabled job that has never run, armed for its right next run; "at" jobs are deleted after their run |
| Cron.CronService.RemoveJob | ottoclaw/pkg/cron/service.go:400-425 | removes and saves exactly if the job exists |
| Cron.CronService.EnableJob | ottoclaw/pkg/cron/service.go:427-451 | arms the job for its right next run or clears it, changes no other job, and saves exactly if the job exists |
| Cron.CalledInOrder | ottoclaw/pkg/cron/service.go:171-174 | the jobs called in a tick are a subsequence of the due ones, none more often than it was collected |
| CronRuns.JobStems | ottoclaw/pkg/cron/service.go:135-244 | every job after an event is one from before it, changed only in the ways that event allows, or the job just added |
| CronRuns.OneShotFiresAtMostOnce | ottoclaw/pkg/cron/service.go:135-244 | in no interleaving of ticks of any number of loops, handlers, Add, Remove, Enable, Stop, Start, crashes and restarts is the handler of an "at" job called twice |
| CronRuns.RecurringJobsNeverStuck | ottoclaw/pkg/cron/service.go:150-164 | once started, whenever no handler is collected or running every enabled "every" job has its next run set |
| CronRuns.RemovedStaysRemoved | ottoclaw/pkg/cron/service.go:205-215 | a job that is gone, also while its handler runs, is never resurrected, from memory or from disk |
| CronRuns.RecurringJobsSpaced | ottoclaw/pkg/cron/service.go:246-290 | with one loop at a time the handler starts of an "every" job are at least its period apart, across Enable, Stop, Start and crashes |
| CronRuns.PeriodWrapsAround | ottoclaw/pkg/cron/service.go:254-260 | the next run is a full period away if and only if adding the period to the clock stays in the int64 range; otherwise it lies in the past |
| CronFiring.TickCollects | ottoclaw/pkg/cron/service.go:143-163 | a tick adds exactly the due jobs to those waiting for their call, each once, and clears their next run |
| CronFiring.AddArms | ottoclaw/pkg/cron/service.go:343-384 | adding an "at" job arms it for its time if and only if that lies ahead |
| CronFiring.EnableArms | ottoclaw/pkg/cron/service.go:427-451 | enabling it does if and only if its time lies ahead |
| CronFiring.StartArms | ottoclaw/pkg/cron/service.go:82-104 | and so does a start, for an enabled job of the store |
| CronFiring.StaysArmedIff | ottoclaw/pkg/cron/service.go:135-244 | an "at" job armed for t stays so over an event if and only if the event is no tick, late start or late enabling at or after t and does not finish, remove or disable the job; stops, crashes and whatever happens to other jobs leave it armed |
| CronFiring.OneShotFires | ottoclaw/pkg/cron/service.go:135-244 | in every run an "at" job added for a time ahead is, as long as no event loses it, armed for its time, collected, or called exactly once; a tick at or after its time and the turn that follows see it called |
| CronFiring.RecurringJobsDueWithin | ottoclaw/pkg/cron/service.go:246-290 | in every run, once started and with no handler collected or running, an enabled "every" job is due within its period |
| Bus.NextKeepsValid | ottoclaw/pkg/bus/bus.go:33-157 | every atomic step of every call keeps queues, deliveries and late calls in order |
| Bus.Conservation | ottoclaw/pkg/bus/bus.go:33-157 | under any interleaving, on each queue the accepted messages in order are those taken out followed by those buffered; at most 64 are buffered; none is accepted twice |
| Bus.OneConsumerEach | ottoclaw/pkg/bus/bus.go:50-59 | no message reaches two consumers, and what a consumer returns was accepted on its queue |
| Bus.LatePublishRefused | ottoclaw/pkg/bus/bus.go:33-48 | a publish call that begins after the compare-and-swap of Close is never accepted |
| Bus.AcceptsIff | ottoclaw/pkg/bus/bus.go:40-47 | a message can be accepted exactly when there is room and a call is in its select, also after the drain |
| Bus.LeavesBehindIff | ottoclaw/pkg/bus/bus.go:117-157 | Close can return beside a message on a queue if and only if some publish call on that queue is past its load when Close sets closed |
| Bus.CanLeaveBehind | ottoclaw/pkg/bus/bus.go:33-48 | from every state with Close past its compare-and-swap, a publish call in flight can leave its queue with a message that Close does not see |
| Bus.CloseDrains | ottoclaw/pkg/bus/bus.go:117-157 | if no publish call on a queue is past its load when Close takes effect, the queue is empty once Close returns |
| Bus.ReturnsAlone | ottoclaw/pkg/bus/bus.go:33-157 | once done is closed no call depends on another: each unfinished one, a draining Close included, returns by its own steps alone |
| Bus.PublishGetsThrough | ottoclaw/pkg/bus/bus.go:33-48 | on an open bus with room a publish call that begins gets its message to the end of its queue by its own steps |
| Bus.ConsumeTakesHead | ottoclaw/pkg/bus/bus.go:50-59 | on a queue with messages a consumer that begins gets the oldest one by its own steps |
| Bus.CloseGetsThrough | ottoclaw/pkg/bus/bus.go:117-157 | on an open bus Close gets to its end by its own steps, with every queue empty and the bus closed |
| Bus.MessageBus.Publish | ottoclaw/pkg/bus/bus.go:33-48 | refused when the bus was closed before the call; accepted exactly when the message is on the queue; an error only of a closed bus or a cancelled call, and blocked only on a full queue |
| Bus.MessageBus.Consume | ottoclaw/pkg/bus/bus.go:50-59 | what is returned was taken from the queue, and nothing is returned only of a closed bus, a cancelled call or an empty queue |
| Bus.MessageBus.Close | ottoclaw/pkg/bus/bus.go:117-157 | only the first Close drains, queue by queue, a later one returns at once; and Close comes to an end whatever the other calls do |
| Bus.OutstandingFalls | ottoclaw/pkg/bus/bus.go:33-157 | on a closed bus no step makes the messages still to drain more: those buffered and those of calls in flight |
| SessionLock.NextKeepsValid | ottoclaw/pkg/agent/loop.go:777-794 | while no holder is past its TTL the map holds exactly the locks of the calls inside, with their own timestamps |
| SessionLock.MutualExclusion | ottoclaw/pkg/agent/loop.go:777-794 | if no holder keeps its lock longer than the TTL, over any interleaving at most one call per session is inside and no lock is taken over |
| SessionLock.TakeoverIff | ottoclaw/pkg/agent/loop.go:781-788 | a lock is taken over exactly when the holder's timestamp is more than the TTL behind the caller's |
| SessionLock.OverstayBreaksExclusion | ottoclaw/pkg/agent/loop.go:783-794 | from every state with a holder past its TTL a second call gets inside, and when the first returns it deletes the second's lock, so that a third enters as well |
| SessionLock.GetsBesideIff | ottoclaw/pkg/agent/loop.go:777-794 | from every state a call that begins then gets inside beside a holder if and only if that holder is past its TTL |
| SessionLock.EntersIff | ottoclaw/pkg/agent/loop.go:777-794 | a call that begins gets inside by its own steps if and only if no call is inside or only one past its TTL |
| SessionLock.ReturningFrees | ottoclaw/pkg/agent/loop.go:794 | a call that returns leaves its session free and the locks of other sessions alone |
| SessionLock.ExclusionFailsIff | ottoclaw/pkg/agent/loop.go:777-794 | over every run, a second call can get inside a session beside a holder at some moment of it if and only if at some moment of it some holder is past its TTL |
| SessionLock.Sessions.ProcessMessage | ottoclaw/pkg/agent/loop.go:777-816 | LoadOrStore, takeover or refusal, the work, once and only if not refused, the deferred deletion |
| SessionLock.Sessions.RunAgentLoop | ottoclaw/pkg/agent/loop.go:794-815 | during the work no other call is inside the session, unless some holder overstayed |
| Media.ViewDetermines | ottoclaw/pkg/media/store.go:53-60 | two consistent indexes of the same items are equal in all three maps |
| Media.StoreKeeps | ottoclaw/pkg/media/store.go:91-109 | a registration under a new ref keeps the maps each other's index and adds exactly one item |
| Media.ReleaseKeeps | ottoclaw/pkg/media/store.go:138-170 | a release removes exactly the items of one scope and keeps the maps consistent |
| Media.DropKeeps | ottoclaw/pkg/media/store.go:190-206 | an expired ref leaves all three maps, with its scope if it was the last, and nothing else changes |
| Media.FileMediaStore.Store | ottoclaw/pkg/media/store.go:91-109 | registers an existing file, refuses a missing one |
| Media.FileMediaStore.ResolveWithMeta | ottoclaw/pkg/media/store.go:124-133 | path and metadata of a registered ref, an error for any other |
| Media.FileMediaStore.ReleaseAll | ottoclaw/pkg/media/store.go:138-170 | one scope is gone, every other ref resolves as before, and exactly the files of items of that scope are deleted, but for failing deletions |
| Media.FileMediaStore.TakeExpired | ottoclaw/pkg/media/store.go:180-207 | exactly the entries stored before the cutoff are removed, whatever order the map is walked in |
| Media.FileMediaStore.CleanExpired | ottoclaw/pkg/media/store.go:175-220 | with a positive age removes exactly the items stored before the cutoff and their files, but for failing deletions, and returns their number; otherwise nothing |

## Left out

- SplitMessageLoop.SplitMessage: requires no more than that the source's loop ends on the content, because a Dafny method must end; what it does on the others is stated on the iteration (`ChunkBounds`, `ChunksBalanced`, `NeverEnds`), which has no such requirement.
- OutboundWorker.ChannelWorker.RunWorker: requires the same of the contents that are split.
- Bus.MessageBus.Publish: a call still blocked in its select is reported as such; Go would go on waiting.
- Migration.Migrator.MigrateFromJSON: a listing that fails and writes that fail are not modelled; a file that cannot be read or parsed is one kind of content.
- Cron.CronService.Start: a job file that fails to parse leaves no jobs, where the source may keep those decoded before the error.
- TornLog.MissingIffAfterTear: is about a log without truncations or rewrites, with each read returning the whole log.
- Bytes and encodings: runes are characters, a JSON line is a message, an unreadable line or an over-long one; blank lines in a log, which both scans ignore, are not represented.
- Input and output errors of the session store other than an over-long line, its lock shards (operations on one session are sequential), timestamps and the key field of the metadata.
- AddMessage and AddFullMessage of the store, which only build the message for addMsg.
- File permissions, the creation of parent directories beyond its failure, and hard links.
- Rate limiter, backoff durations, the media worker, the dispatcher of the channel manager and the eviction of old records; what other goroutines record between two pieces, or between two attempts, is arbitrary.
- Expressions of the "cron" schedule kind: the external library is a function from expression and time to a time; beyond the next run it gives, only "at" and "every" jobs have results over runs.
- UpdateJob, Load, ListJobs, Status and the payloads of scheduled jobs; a save that fails.
- CronRuns takes the start time of a handler and the lookup of its job as one step.
- The text of the identity section and of the summaries of skills and memory, which are functions of the files read; daily notes are a fixed input; errors of stat and walk other than absence.
- Empty skill directories: the skills summary is a function of the files below the roots.
- Provider answers other than the cases of the retry loop, the classification of error texts, reasoning output, usage ledgers, media references and mission reports of the agent loop.
- Requests built without history (heartbeats) are not a separate case of `BuildMessages`.
- Summarization itself: only its truncation of the history is modelled.
- Start and Stop of the media cleaner, uuid generation, and whether a path is shared by several refs.
- Close of the external tool manager, robot control, launchers, configuration, routing and the language model providers: other parts of the repository, with little state to reason about or unseen libraries.
