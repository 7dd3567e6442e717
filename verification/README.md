# Mewcode: a verified model of its core

Mewcode is a terminal coding agent. This project models the parts of it that hold state which
must survive crashes and races, and proves what they promise over every input, every run or
every interleaving. Code that changes state in place is a class whose methods are proved equal
to the steps of a specification and keep its invariants; the lemmas prove what those steps keep over whole runs.
What a step means (which status, stop reason, note, message or decision it ends with, and when it fails) is stated
apart from the functions that compute it and proved of them.

| part of the program | modules |
|---|---|
| journaled memory commit and its recovery | `MemoryTransaction`, `MemoryFiles` |
| memory index, prompt view, updates and loads | `MemoryIndex`, `MemoryUpdates`, `MemoryMutations` |
| session event log, replay, repair, scan | `ToolPairing`, `SessionRecords`, `SessionLog`, `SessionMeaning`, `SessionStore`, `SessionRecovery`, `SessionBinding`, `SessionScan` |
| mailbox delivery into a session | `Mailbox`, `InboundBatch`, `InboundDelivery`, `InboundContent` |
| capacity pool and subagent tasks | `CapacityPool`, `AgentCapacity`, `TaskManager`, `TaskOutcomes`, `TaskProgress`, `SubagentTasks` |
| agent loop and its committed histories | `ProviderMessages`, `AgentLoop`, `AgentHistory`, `AgentOutcome`, `AgentRun` |
| schedule of tool calls | `ToolSchedule` |
| context compaction | `HistorySelection`, `TokenBudget`, `ToolResults` |
| subagent notifications | `Notifications` |
| globs, permission rules, permission choices | `Glob`, `GlobRegex`, `PermissionRules`, `PermissionControl` |
| team JSON codec | `TeamCodec` |
| shared | `Wrappers`, `Text`, `Utf8`, `Chat`, `IdLists` |

`dafny verify dfyconfig.toml` checks the whole project.

## How the model reads the program

- A crash is a prefix of the file operations performed (memory) or a cut at any byte (session log).
  A backup or temporary file may be torn; a rename is atomic, and a torn draft of the journal is never read.
- A critical section without suspension is one step. Everything else interleaves at its awaits.
- Whatever the outside decides is an input: responses, failures of writes, generated ids, the time,
  the order in which tasks start and finish, the moment of a cancellation.
- JSON text, ISO timestamps, SHA-256 and text sanitizing are opaque functions. The only law assumed
  of JSON is that loading undoes dumping and that a dumped value holds no newline (section 7 of
  RFC 8259); of timestamps, that parsing undoes formatting.
- Regular expressions are not opaque: `GlobRegex` reads the compiled text back by the rules of Python's
  `re` for the constructs that occur and gives it a meaning.

## Where the program does not keep a promise

Each of these is behaviour of the code, kept in the model. The lemmas named give a concrete input,
the exact condition under which the promise holds, or both.

- A roll back is not re-entrant: its renames consume the backups (`RollBackAgainIff`, `RollBackTwiceFails`).
- A stored plan with a blank text is lost at the next replay (`CommitKeepsIff`, `BlankPlanIsLost`). The only
  caller, `src/mewcode/conversation.py:313-336`, checks both texts, so this concerns `commit_plan` by itself.
- A reset of a session that raises after its rename leaves an empty log under a binding that still holds the
  old state (`FailedResetKeepsIff`).
- `reset` of the task manager loses a capacity slot for ever when it clears a task that is still active,
  which happens to a task that is hard-cancelled in its `finally` block (`ResetLosesSlotsIff`, `ResetCanLoseASlot`);
  `RunLosesNothingIff` and `GentleRunsLoseNothing` say which runs are safe.
- Mailbox batches in PLAN mode end the run while investigation answers are held back (`InboundExtendsIff`,
  `PlanInboundFails`, `PlanInboundEndsRun`).
- A seeded run whose limit is below the configured ones can fall through its loop (`FallsThroughIff`).
- A cancelled schedule can end without an execution for a read, and the round would then be unpaired
  (`AlwaysOneEachIff`, `CancelCanLoseACall`, `CommittedRoundPairedIff`).
- The title in the session list differs from the title of the session when the user first writes the session
  id and later something else (`ScanMatchesReplay`, `TitlesCanPart`).
- A permanent choice does not survive a restart when the file denies the same target exactly or holds a
  descending range for the tool (`PermanentSurvivesRestartIff`, `DenyingFileOverrules`).
- A glob with a descending range passes the parsing of a rule and raises when it is matched
  (`DescendingRangeIsParsed`, `MatchFailsIff`, `CompiledText`).
- A notification too large for a batch even without its result stops the queue (`HeadBlocksIff`, `LongErrorBlocks`).
- Both refill branches of `_preview_parts` are unreachable (`PreviewPartsLoop`).

One more concerns `apply_choice` by itself: a permanent choice about a tool whose name holds a parenthesis can
write a rule for another tool (`PermanentReachesOthersIff`, `BracketedToolLeaks`). No registered tool has such a
name: names of MCP tools are letters, digits, `_` and `-` (`src/mewcode/mcp/naming.py:6`), those of skill tools
follow `src/mewcode/skills/models.py:12`, and built-in tools are identifiers.

## Model

| member | source | states |
|---|---|---|
| MemoryTransaction.CommitIsAtomic | src/mewcode/continuity/memory_store.py:384-464 | For every set of changes over both scopes and a stop after any single file operation (a torn backup or temporary file included), one uninterrupted recovery succeeds, removes the journal, and leaves every target old before the commit point and every target new from it on |
| MemoryTransaction.CrashWhileStaging | src/mewcode/continuity/memory_store.py:388-410 | Stopping before the journal is published: recovery has nothing to undo and every target is as before, whatever the torn file holds |
| MemoryTransaction.CrashWhileSwitching | src/mewcode/continuity/memory_store.py:409-418 | Stopping while targets are renamed: the uncommitted journal is there, files of other targets and transactions are untouched, and each target is either unchanged or has its whole backup beside it |
| MemoryTransaction.CrashWhileCleaning | src/mewcode/continuity/memory_store.py:417-426 | Stopping at or after the commit point: no foreign file is touched; each change is in place without a temporary file while the journal stands, and with all adjacent files gone at the end |
| MemoryTransaction.RollBack | src/mewcode/continuity/memory_store.py:450-464 | Recovery of any uncommitted disk in which each target is undoable restores exactly the files from before the commit |
| MemoryTransaction.RollForward | src/mewcode/continuity/memory_store.py:438-464 | Recovery of any committed disk succeeds with exactly the changed files if and only if each target is completable: a deletion without temporary file, the new content in place, or the new content in the temporary file with the target absent or of another checksum |
| MemoryTransaction.RecoverySucceedsIff | src/mewcode/continuity/memory_store.py:428-464 | Recovery succeeds if and only if every target can be settled: new content by its checksum in one of two places, or a backup of a file that existed; then each holds that content and the journal is gone, and a recovery that raises keeps the journal |
| MemoryTransaction.RollForwardIsReentrant | src/mewcode/continuity/memory_store.py:438-449 | From any such disk rolling forward may be stopped after any operation, before and after each rename, any number of times; one more recovery still ends with exactly the changed files |
| MemoryTransaction.RollBackAgainIff | src/mewcode/continuity/memory_store.py:450-458 | The property fails for rolling back: a second recovery after `j` operations succeeds if and only if none of the first `j` targets existed before (their backup was consumed by the rename); when it succeeds the old files are back |
| MemoryTransaction.RollBackTwiceFails | src/mewcode/continuity/memory_store.py:453-456 | Concrete input of that failure: one rewritten index file, roll back stopped right after the rename of its backup, second recovery raises |
| MemoryFiles.MemoryDisk.WriteJournal | src/mewcode/continuity/memory_store.py:529-537 | The journal is drafted beside the real one and published by one rename |
| MemoryFiles.MemoryDisk.StageFiles | src/mewcode/continuity/memory_store.py:388-408 | Performs exactly the backup and temporary writes of each change, in order, and returns the journal records |
| MemoryFiles.MemoryDisk.SwitchFiles | src/mewcode/continuity/memory_store.py:411-416 | Performs exactly one rename or removal per record, in order |
| MemoryFiles.MemoryDisk.CommitFiles | src/mewcode/continuity/memory_store.py:384-420 | The performed file operations, in order, are exactly those whose every prefix `CommitIsAtomic` speaks about |
| MemoryFiles.MemoryDisk.AbandonCommit | src/mewcode/continuity/memory_store.py:421-426 | The exception branch: one recovery; further writes are disabled if and only if that recovery raises |
| MemoryFiles.MemoryDisk.FailCommit | src/mewcode/continuity/memory_store.py:421-426 | After a commit that raised at any operation, perhaps inside a write, the branch leaves every target old before the commit point and new from it on, no journal, and writing enabled |
| MemoryFiles.MemoryDisk.ResolveRecord | src/mewcode/continuity/memory_store.py:437-458 | One round of either recovery loop: the operations for this record in this disk state, or a failure when neither target nor adjacent file can settle it |
| MemoryFiles.MemoryDisk.ResolveRecords | src/mewcode/continuity/memory_store.py:437-458 | The records are settled in journal order, each on the disk the earlier ones left, a target named twice included; the first that cannot be settled stops the loop after the operations before it |
| MemoryFiles.MemoryDisk.CleanupRecords | src/mewcode/continuity/memory_store.py:491-497 | Removes exactly the adjacent files of the records |
| MemoryFiles.MemoryDisk.RecoverTransaction | src/mewcode/continuity/memory_store.py:428-464 | The performed operations and the success flag are exactly those of the recovery that the atomicity lemmas speak about |
| MemoryIndex.SortOrders | src/mewcode/continuity/memory_store.py:96-106 | Sorting distinct entries gives the same entries ordered by priority, then newest first, then id |
| MemoryIndex.OrderIsCanonical | src/mewcode/continuity/memory_store.py:96-106 | There is only one such order: the order of the files does not matter |
| MemoryIndex.SortedByPriority | src/mewcode/continuity/memory_store.py:96-106 | Of two sorted entries the earlier has the smaller priority number, with equal ones the later update, then the smaller id |
| MemoryIndex.TextLessMeans | src/mewcode/continuity/memory_store.py:96-106 | Ids compare as texts: at the first difference the one that has ended or is smaller comes first |
| MemoryIndex.IndexKeepsPrefix | src/mewcode/continuity/memory_store.py:109-128 | The index keeps a prefix of the priority order, its text obeys the line and byte limits, and the next row would break one of them |
| MemoryIndex.IndexShows | src/mewcode/continuity/memory_store.py:109-128 | The text is the head and one row for each kept entry, and nothing is left out if and only if all rows fit; without room for the head there is no index |
| MemoryIndex.IndexIsStable | src/mewcode/continuity/memory_store.py:109-128 | Indexing the kept entries again, in any order, gives the same text and the same entries |
| MemoryIndex.ViewObeysLimits | src/mewcode/continuity/memory_store.py:131-164 | The prompt view stays within both limits and includes a prefix of each scope in priority order |
| MemoryIndex.ViewShows | src/mewcode/continuity/memory_store.py:131-164 | There is a view if and only if the introduction fits; its text is the introduction, then for each scope with entries the heading (if it fits), the rows of the leading entries that fit and an empty line; the row of the next entry would not fit |
| MemoryIndex.SortEntries | src/mewcode/continuity/memory_store.py:96-106 | The sort, as insertions, yields the canonical order |
| MemoryIndex.WriteIndex | src/mewcode/continuity/memory_store.py:109-128 | The loop that grows the index computes the index whose properties are proved above |
| MemoryIndex.AddScope | src/mewcode/continuity/memory_store.py:138-160 | The loop over one scope adds exactly the leading entries that fit and lists their ids |
| MemoryIndex.BuildPromptView | src/mewcode/continuity/memory_store.py:131-164 | Both scopes in order give the view whose limits are proved above |
| MemoryUpdates.OneKeepsDistinct | src/mewcode/continuity/memory_store.py:282-326 | A mutation that succeeds keeps note ids distinct over both scopes |
| MemoryUpdates.AllKeepDistinct | src/mewcode/continuity/memory_store.py:242-252 | So does a whole plan |
| MemoryMutations.DeleteMeans | src/mewcode/continuity/memory_store.py:282-293 | A deletion works if and only if a note of that id and scope exists; it takes away this note and leaves the others as they are, in order |
| MemoryMutations.RewriteMeans | src/mewcode/continuity/memory_store.py:294-326 | An upsert of a known id works if and only if a note of that id and scope exists, the texts may be written, the turn is not older than the note and the note is not too large; it replaces the note in its place by the stripped texts, category, priority, turn and session, with `created` kept |
| MemoryMutations.CreateMeans | src/mewcode/continuity/memory_store.py:294-326 | An upsert without id works if and only if the texts may be written, a generated id is free and the note is not too large; it adds one note at the end, created and updated at the turn |
| MemoryMutations.FirstFree | src/mewcode/continuity/memory_store.py:327-332 | The generated id is the first that no note has |
| MemoryMutations.OneMeans | src/mewcode/continuity/memory_store.py:282-326 | After any mutation that works its id is known as it was written, or not at all, and every other id as before |
| MemoryMutations.PlanWorksIff | src/mewcode/continuity/memory_store.py:242-252 | A plan works if and only if each of its mutations works on the notes that the earlier ones left |
| MemoryMutations.LastMutationDecides | src/mewcode/continuity/memory_store.py:242-252 | In a plan that works the last mutation about an id decides what is known under it; an id that none is about keeps its note |
| MemoryUpdates.UpdateAgrees | src/mewcode/continuity/memory_store.py:242-280 | After an update note files, index rows and catalog hold the same entries in each scope, no note is invented, and the view is the view of those entries |
| MemoryUpdates.LoadAgreesWithUpdate | src/mewcode/continuity/memory_store.py:199-228 | Loading right after an update recomputes the same indexes, catalog and view whatever the order in which the note files are listed |
| MemoryUpdates.MemoryStore.CollectEntries | src/mewcode/continuity/memory_store.py:202-212 | The entries of one scope, in file order |
| MemoryUpdates.MemoryStore.LoadIndexes | src/mewcode/continuity/memory_store.py:199-228 | A load replaces indexes, catalog and view together and enables updates; a failing one keeps what was held and disables them |
| MemoryUpdates.MemoryStore.Mutate | src/mewcode/continuity/memory_store.py:249-252 | The mutations apply in order, each with the meaning proved above; the first error is the error of the plan |
| MemoryUpdates.MemoryStore.ApplyPlan | src/mewcode/continuity/memory_store.py:230-280 | An update fails exactly when updates are disabled, the plan is too long, a mutation fails or the files cannot be committed; then nothing changes, otherwise notes, indexes, catalog and view change together |
| ToolPairing.PrefixIsFirstFault | src/mewcode/continuity/session_codec.py:271-312 | The valid prefix ends at a run boundary, every run before it is in order, and the run at it (if any) is not: an ungrouped tool message or an ill-paired group |
| ToolPairing.PrefixIsUnique | src/mewcode/continuity/session_codec.py:271-312 | No other place has these properties |
| ToolPairing.CutPrefix | src/mewcode/continuity/session_codec.py:271-312 | A cut at any boundary keeps what was valid before it, and validity of the rest adds up |
| ToolPairing.PrefixIsIdempotent | src/mewcode/continuity/session_codec.py:271-312 | A repaired history has nothing left to repair |
| ToolPairing.JoinPaired | src/mewcode/continuity/session_codec.py:271-312 | Two histories with no run across the seam join to a paired one if and only if both are paired |
| ToolPairing.PlainPaired | src/mewcode/continuity/session_codec.py:277-284 | Messages without tools are always in order |
| ToolPairing.ToolIdsAre | src/mewcode/continuity/session_codec.py:325-343 | An object names its one tool id, if it is of the wanted type and the id is a non-empty text; a list the ids of its items; anything else none |
| ToolPairing.ItemIdsAre | src/mewcode/continuity/session_codec.py:335-342 | The ids of items stand in order, and an item names one id or none |
| ToolPairing.GroupPaired | src/mewcode/continuity/session_codec.py:285-310 | A group with tool messages is paired if and only if calls come first, ids on each side are distinct, and calls and results carry the same ids |
| ToolPairing.CollectRun | src/mewcode/continuity/session_codec.py:280-290 | The inner loop collects exactly the first run and never splits a group |
| ToolPairing.PairGroup | src/mewcode/continuity/session_codec.py:291-310 | The loop over a group decides whether it is well paired, as stated over the whole lists of ids |
| ToolPairing.ValidToolPrefix | src/mewcode/continuity/session_codec.py:271-312 | The loop returns the valid prefix characterised above |
| SessionRecords.MessageRoundTrip | src/mewcode/continuity/session_codec.py:91-117 | An encoded message decodes to itself, unless its role is empty: then it is rejected |
| SessionRecords.SkillsRoundTrip | src/mewcode/continuity/session_codec.py:78-88 | Encoded skills are read back if and only if their names are non-empty and distinct |
| SessionRecords.IdsRoundTrip | src/mewcode/continuity/session_codec.py:380-386 | Encoded mailbox ids are read back if and only if they are non-empty and distinct |
| SessionRecords.PlanRoundTrip | src/mewcode/continuity/session_codec.py:66-75 | An encoded plan is read back if and only if it is absent or both its texts are not blank |
| SessionRecords.EntryRoundTrip | src/mewcode/continuity/session_codec.py:17-88 | A record is read back if and only if its body is good, and then exactly as written |
| SessionRecords.EntryIsReadIff | src/mewcode/continuity/session_codec.py:148-195 | A line is read as a record if and only if it is an object of version 1 with a readable time, of the type of the record, with the fields of the record exactly as they are written, and the record is a good one; other fields do not matter |
| SessionLog.ReadLine | src/mewcode/continuity/session_codec.py:133-140 | A read returns the bytes up to and including the next newline, or the rest |
| SessionLog.ReplayFile | src/mewcode/continuity/session_codec.py:119-195 | The replay loop computes the replay of the whole log |
| SessionLog.ReplaySplit | src/mewcode/continuity/session_codec.py:119-195 | A log that begins with whole lines replays in two steps, with offsets carried over |
| SessionLog.TornReplay | src/mewcode/continuity/session_codec.py:136-146 | A torn log replays as its whole lines, with the offset of the torn line marked and one more invalid record counted |
| SessionMeaning.ReplayMeans | src/mewcode/continuity/session_codec.py:119-195 | Whatever bytes a log holds: the replay has the messages since the last replacing record, the last plan and skills, the ids recorded since the last replacing record, the time of the first start and the latest time among the readable records of its whole lines; every other line and a torn one counts as invalid |
| SessionMeaning.LinesAreTheLog | src/mewcode/continuity/session_codec.py:133-146 | where a log is exactly its whole lines and the torn one |
| SessionLog.AppendLine | src/mewcode/continuity/session_codec.py:119-195 | Appending a record to a whole log applies it to the replay, or counts one invalid record when it cannot be read back |
| SessionScan.ScanFile | src/mewcode/continuity/session_codec.py:198-268 | The scan loop computes the scan of the whole log |
| SessionScan.ScanMatchesReplay | src/mewcode/continuity/session_codec.py:198-268 | For every log, scan and replay agree on message count, last activity, invalid count and valid start, and on the title if and only if it is not the case that the history is titled with the session id while some record of it brings another title |
| SessionScan.TitleMeans | src/mewcode/continuity/session_codec.py:315-322 | The title is what the first cleaned, non-blank text of the user says, cut to 60 characters |
| SessionScan.NoTitle | src/mewcode/continuity/session_codec.py:315-322 | and without one the session id |
| SessionScan.AppendTitlesAgreeIff | src/mewcode/continuity/session_codec.py:239-256 | An append parts the two titles exactly when an earlier message of the user is titled with the session id and a later one is titled otherwise |
| SessionScan.TitlesCanPart | src/mewcode/continuity/session_codec.py:239-256 | Concrete input: a user who sends the id of the session first and "hello" in a later turn |
| SessionStore.FreshIsFilter | src/mewcode/continuity/session_repository.py:113-119 | The ids still to record are those not delivered yet; none is left if and only if all are delivered |
| SessionStore.RecordTellsCommit | src/mewcode/continuity/session_repository.py:78-154 | The record of a commit does to a replay exactly what the commit does to the binding; a commit without record changes nothing |
| SessionStore.CommitRefusedIff | src/mewcode/continuity/session_repository.py:104-129 | Only mailbox messages can be refused, with each error told apart: with every id delivered they must be the history unchanged, otherwise extend it by one message for each id still to record |
| SessionStore.RecordIsMinimal | src/mewcode/continuity/session_repository.py:78-154 | A commit that changes nothing writes nothing, one that extends the history writes only the new messages, and only another history is written whole |
| SessionStore.CommitKeepsIff | src/mewcode/continuity/session_repository.py:78-154 | After any commit the log replays to the binding if and only if the record it wrote can be read back |
| SessionStore.BlankPlanIsLost | src/mewcode/continuity/session_repository.py:131-141 | Concrete case in which it cannot: a plan with a blank task is stored in the binding, written, and skipped by every replay |
| SessionStore.ResetKeeps | src/mewcode/continuity/session_repository.py:156-197 | A reset that succeeds leaves a log that replays to the binding |
| SessionStore.FailedResetKeepsIff | src/mewcode/continuity/session_repository.py:176-197 | A reset that raises after its rename leaves log and binding equal if and only if the binding held no message, plan, skill or delivered id |
| SessionStore.TornAppend | src/mewcode/continuity/session_repository.py:206-217 | An append that stopped after `k` bytes leaves log and binding equal if and only if nothing was written, or the whole of a record that no replay accepts; a replay finds the commit if and only if a readable record was written whole |
| SessionStore.GoodCommitKeeps | src/mewcode/continuity/session_repository.py:78-197 | A commit of readable values keeps log and binding equal |
| SessionStore.CommitIsRead | src/mewcode/continuity/session_repository.py:78-197 | After it a replay of the log reads exactly what the commit stored (history, mailbox ids, plan, skills), and all else as before |
| SessionStore.RunKeeps | src/mewcode/continuity/session_repository.py:78-197 | So does every stage of every run of such commits |
| SessionStore.CutReplay | src/mewcode/continuity/session_repository.py:403-426 | For every run of commits and resets and every byte at which the log is cut after its start, the whole lines left replay to the binding state of the last stage still in the log |
| SessionRecovery.ReopenRepairs | src/mewcode/continuity/session_repository.py:379-456 | Whatever the log holds, a session that reopens has a paired history, a log that replays to the binding, and differs from the replay only by the unpaired tail dropped and a notice added after a long gap |
| SessionRecovery.ReopenIsIdempotent | src/mewcode/continuity/session_repository.py:379-456 | Reopening again at the same moment changes neither log nor binding |
| SessionRecovery.CrashThenReopen | src/mewcode/continuity/session_repository.py:379-456 | A crash at any byte of any run followed by a reopening, which succeeds if and only if the last whole record is within the retention time (never older than the session), keeps plan, skills, delivered ids and the paired part of the history of the last whole stage, and log and binding are equal again |
| SessionBindings.SessionBinding.AppendRecord | src/mewcode/continuity/session_repository.py:206-217 | A successful append adds the whole payload although each write may be short; a failed one leaves some prefix of it |
| SessionBindings.SessionBinding.CommitHistory | src/mewcode/continuity/session_repository.py:78-95 | Every outcome of the commit (closed, nothing new, append, replace, failed write) is the one of the commit step of `SessionStore`; a failed write leaves the binding open with its old fields and at most a part of the record in the log. A binding equal to its log stays so exactly as `Kept` says |
| SessionBindings.SessionBinding.FilterIds | src/mewcode/continuity/session_repository.py:113-115 | The loop keeps the ids not delivered yet, in order |
| SessionBindings.SessionBinding.CommitInbound | src/mewcode/continuity/session_repository.py:104-129 | The same for messages with their mailbox ids: rejected unless the candidate extends the history, nothing written when all ids are known |
| SessionBindings.SessionBinding.CommitPlan | src/mewcode/continuity/session_repository.py:131-141 | The same for the pending plan |
| SessionBindings.SessionBinding.CommitSkills | src/mewcode/continuity/session_repository.py:143-154 | The same for the active skills |
| SessionBindings.SessionBinding.ResetState | src/mewcode/continuity/session_repository.py:156-197 | The new log replaces the old one as a whole; a failure before the rename changes nothing, one after it (opening or syncing the directory) leaves the reset log under the old fields. Success makes log and binding equal whatever they were |
| Mailboxes.AppendReadMarks | src/mewcode/teams/mailbox.py:70-80 | A read receipt marks exactly the known ids among those given and changes no message |
| Mailboxes.FirstPostingCounts | src/mewcode/teams/mailbox.py:82-108 | Of the postings under one id the first counts, and the messages stand in posting order |
| Mailboxes.ReadIff | src/mewcode/teams/mailbox.py:82-108 | A message is read if and only if some receipt names it |
| Mailboxes.PageIsFirst | src/mewcode/teams/mailbox.py:240-259 | The page of unread messages is the first of them in posting order, as many as the limit allows |
| InboundDelivery.OthersAct | src/mewcode/teams/mailbox.py:62-80 | In the delivery machine a fresh message is posted at the end, and the agent itself marks exactly the known ones it names, between turns |
| Mailboxes.TeamMailbox.Messages | src/mewcode/teams/mailbox.py:82-108 | The records read in order give the messages and the set of read ids |
| Mailboxes.TeamMailbox.AppendMessage | src/mewcode/teams/mailbox.py:62-68 | A message is appended if and only if its id is new |
| Mailboxes.TeamMailbox.MarkRead | src/mewcode/teams/mailbox.py:70-80 | Appends one receipt of the known ids, each once, in the given order |
| Mailboxes.TeamMailbox.ListUnread | src/mewcode/teams/mailbox.py:240-259 | The first unread messages up to the limit, in posting order; a limit outside 1 to 1000 is an error |
| InboundBatches.TakeBytesIsLongest | src/mewcode/teams/inbound.py:105-111 | Cutting a text to a number of bytes keeps its longest prefix that fits; no character is split |
| InboundBatches.TruncateFits | src/mewcode/teams/inbound.py:105-111 | A text that fits is kept; a longer one becomes its longest fitting prefix before the marker, within the limit |
| InboundBatches.RenderedDelivers | src/mewcode/teams/inbound.py:30-55 | The chat message for a mail has its id, sender, summary and protocol; within the limit it has the bounded body and the payload made safe, beyond it at most a quarter of the limit of the body and the mark for the payload |
| InboundBatches.BatchDelivers | src/mewcode/teams/inbound.py:19-55 | Message `i` of a batch delivers mail `i` in this sense |
| InboundBatches.BatchMakesProgress | src/mewcode/teams/inbound.py:19-55 | A batch takes a non-empty prefix of the messages whenever there is one, holds the ids of exactly that prefix, obeys the byte limit beyond its first message, and could not have held the next one |
| InboundBatches.TakesIsUnique | src/mewcode/teams/inbound.py:19-55 | Only one length of prefix has these properties |
| InboundBatches.TotalJoin | src/mewcode/teams/inbound.py:26-40 | The size held against the limit is the sum of the sizes that the messages have when nothing of them is cut |
| InboundBatches.RenderInboundBatch | src/mewcode/teams/inbound.py:19-55 | The loop returns that batch, whose messages deliver the mails field by field; a limit below 512 is an error |
| InboundBatches.MailboxInboundSource.Poll | src/mewcode/teams/inbound.py:72-91 | Marks exactly the already delivered messages of the page read and returns the batch of the others; both limit errors are told apart from an empty mailbox |
| InboundBatches.MailboxInboundSource.Acknowledge | src/mewcode/teams/inbound.py:93-94 | Marks exactly the ids of the batch read |
| InboundDelivery.StepKeeps | src/mewcode/teams/inbound.py:72-94 | Posting, reading, repairing, writing, acknowledging, abandoning, crashing, tearing a record at any byte and reopening each keep the delivery invariant |
| InboundDelivery.RunKeeps | src/mewcode/teams/inbound.py:72-94 | So does every run from a state that has it |
| InboundDelivery.RunGuarantees | src/mewcode/agent/runner.py:272-299 | In every interleaving, no mailbox id enters the durable log twice, the log lists ids in posting order, a gap is only left by a message the agent marked itself, nothing is marked read before it is durable (or by the agent itself), and the delivered set of binding and replay is the set in the log |
| InboundDelivery.DeliversInOrder | src/mewcode/agent/runner.py:272-299 | When the agent marks nothing itself, the ids in the log are a prefix of the postings and only logged ids are read |
| InboundContents.LogTellsPosts | src/mewcode/agent/runner.py:272-299 | Over every run, with crashes and repairs: the message that the durable log holds under a mailbox id delivers the posted mail with that id, and under every id of the log there is one |
| InboundDelivery.TurnAdvances | src/mewcode/agent/runner.py:272-299 | A whole turn of poll, commit and acknowledge with a fresh message on the page records at least one, and with any unread message leaves fewer unread |
| InboundDelivery.TurnsDrain | src/mewcode/agent/runner.py:272-299 | `n` turns leave at least `n` fewer unread messages or none |
| InboundDelivery.EnoughTurnsDeliverAll | src/mewcode/agent/runner.py:272-299 | As many turns as unread messages put every posted message into the log, except those the agent marked itself |
| CapacityPool.RunGuarantees | src/mewcode/agent/capacity.py:82-192 | In every run, active leases never exceed the limit, an open pool with waiters is full, an owner is at most once in active and waiting together, and each active entry is the current lease of a call of that owner |
| CapacityPool.StepKeeps | src/mewcode/agent/capacity.py:102-192 | Every critical section keeps the invariant |
| CapacityPool.RefusedIff | src/mewcode/agent/capacity.py:102-130 | `acquire` and `try_acquire` fail if and only if the owner is blank, the pool closed or the owner active or waiting already; then nothing changes |
| CapacityPool.GrantedIff | src/mewcode/agent/capacity.py:102-130 | Otherwise a lease is given if and only if there is room, as the only change; without room `try_acquire` changes nothing and `acquire` queues the call last |
| CapacityPool.CloseServesNext | src/mewcode/agent/capacity.py:41-45 | Closing an open lease while others wait gives the slot to exactly the first of them |
| CapacityPool.CallMoves | src/mewcode/agent/capacity.py:102-192 | The life of a call: for each phase the one event that moves it and where to; a held or cancelled call never moves, and only a freed slot grants to one that waits |
| CapacityPool.NoOvertaking | src/mewcode/agent/capacity.py:102-148 | For any two calls, when the later has a lease the earlier one no longer waits, and leases are handed out in arrival order, whether by `acquire` or `try_acquire` |
| CapacityPool.CancelledCallerLeavesNoSlot | src/mewcode/agent/capacity.py:128-150 | Cancelling a caller before, at or after its grant, with its handler run to the end, leaves no slot that belongs to it |
| CapacityPool.CancelThenUnwind | src/mewcode/agent/capacity.py:137-150 | From any state of the queue, whether the call still waits, is granted or is refused, the handler ends with the call cancelled and no call forgotten |
| CapacityPool.StaleReleaseIsIgnored | src/mewcode/agent/capacity.py:165-171 | Releasing or closing with a lease that is closed changes nothing |
| CapacityPool.CloseLeaseKeeps | src/mewcode/agent/capacity.py:41-45 | Closing any lease, known or not, keeps the invariant and the lease stays closed |
| CapacityPool.GrantWaitersKeeps | src/mewcode/agent/capacity.py:173-179 | Granting from the head of the queue fills the pool and keeps the invariant |
| AgentCapacity.AgentCapacityPool.TryAcquire | src/mewcode/agent/capacity.py:102-113 | State and result are those of the step of the pool |
| AgentCapacity.AgentCapacityPool.Acquire | src/mewcode/agent/capacity.py:123-130 | The first critical section: an error, a lease, or a place in the queue |
| AgentCapacity.AgentCapacityPool.Resume | src/mewcode/agent/capacity.py:131-148 | A waiter that wakes up takes the lease of its future |
| AgentCapacity.AgentCapacityPool.CancelAcquire | src/mewcode/agent/capacity.py:134-147 | The cancellation handler withdraws the call from the queue or takes over the granted lease |
| AgentCapacity.AgentCapacityPool.CloseGranted | src/mewcode/agent/capacity.py:148-150 | and then closes it |
| AgentCapacity.AgentCapacityPool.GrantWaiters | src/mewcode/agent/capacity.py:173-179 | The loop grants while there is room and a waiter |
| AgentCapacity.AgentCapacityPool.Grant | src/mewcode/agent/capacity.py:181-184 | A granted owner becomes active under a new token |
| AgentCapacity.AgentCapacityPool.Release | src/mewcode/agent/capacity.py:165-171 | A release acts only with the current token of its owner |
| AgentCapacity.AgentCapacityPool.CloseLease | src/mewcode/agent/capacity.py:41-45 | A lease releases its slot once |
| AgentCapacity.AgentCapacityPool.Close | src/mewcode/agent/capacity.py:152-163 | Closing refuses all waiters and keeps active leases |
| TaskManager.RunGuarantees | src/mewcode/subagents/tasks.py:175-667 | In every reachable state: the foreground pointer names a task if and only if it is the one active foreground task; a record is active if and only if it holds a lease, which is open, its own and nobody else's; cancel and timeout are never both recorded; a finished task with a requested cancellation is CANCELLED or COMPLETED; the driver is told of a cancellation exactly when there is one to tell |
| TaskManager.TerminalIsFinal | src/mewcode/subagents/tasks.py:334-569 | No event, not even the late RUNNING write, changes the status, lease or flags of a finished record |
| TaskOutcomes.DriveEndsWith | src/mewcode/subagents/tasks.py:406-440 | The final status of an active task from its coroutine: what the driver reports counts before what the execution ended with; a timeout fails; a requested cancellation cancels unless completed; anything not final is a failure |
| TaskOutcomes.CancelEndsWith | src/mewcode/subagents/tasks.py:276-288 | A commit of `cancel` ends an active task as cancelled |
| TaskOutcomes.StatusHasASource | src/mewcode/subagents/tasks.py:345-440 | In every run a task is Completed only when its execution or driver reported it, Cancelled only when that was reported, requested or done to its coroutine, and a timed-out task never completes |
| TaskOutcomes.RaisedTaskFails | src/mewcode/subagents/tasks.py:399-403 | so a task whose execution raised, that nobody cancelled or reported on, ends Failed |
| TaskOutcomes.RequestHasASource | src/mewcode/subagents/tasks.py:258-288 | A cancellation is requested only by a call of `cancel` |
| TaskProgress.StartsIff | src/mewcode/subagents/tasks.py:175-223 | A start works if and only if manager and table admit it and the pool has room for its owner; it registers the task with a new slot and changes nothing else, and a refused one changes nothing |
| TaskProgress.RefusedWith | src/mewcode/subagents/tasks.py:176-191 | Which of the five checks refuses it: the first that applies |
| TaskProgress.CancelAnswers | src/mewcode/subagents/tasks.py:258-275 | Each of the four answers of `cancel`, if and only if; an accepted request marks the record, tells an attached driver and changes nothing else |
| TaskProgress.DetachesIff | src/mewcode/subagents/tasks.py:233-250 | A task is detached if and only if it is the active foreground task; nothing but its placement and the pointer changes |
| TaskProgress.ClosingMeans | src/mewcode/subagents/tasks.py:297-316 | A reset begins, in an open manager that is not resetting, by refusing starts and collecting exactly the active tasks; closing does it for good; a caller of `cancel` that gives up only leaves |
| TaskProgress.TaskEnds | src/mewcode/subagents/tasks.py:345-440 | From any state a task that has not begun comes to its end by the steps of its own coroutine: Running, driver attached, the execution ends, and the record takes the outcome or what the driver reports |
| TaskProgress.TaskTimesOut | src/mewcode/subagents/tasks.py:373-440 | From any state a working task that passes its deadline ends Failed, unless its cancellation was requested before |
| TaskProgress.HardCancelMoves | src/mewcode/subagents/tasks.py:258-288 | Only someone who waits for a coroutine cancels it: at its execution it goes on to its `finally` block as cancelled, anywhere else it ends at once, and no record changes |
| TaskProgress.PendingIff | src/mewcode/subagents/tasks.py:504-569 | A notification becomes pending exactly when its background task ends outside a reset, and stays pending until it is delivered |
| TaskManager.StepKeepsRecords | src/mewcode/subagents/tasks.py:175-667 | Every critical section keeps the invariant of the records |
| TaskManager.StepKeepsLeases | src/mewcode/subagents/tasks.py:175-667 | Every critical section, and every step of other users of the pool, keeps the accounting of leases: open slots of tasks are those of active records, those about to be closed and those lost by reset |
| TaskManager.OnlyDeliveredRecordsLeave | src/mewcode/subagents/tasks.py:620-639 | Outside `reset` a record leaves the table only when it is finished and its notification delivered |
| TaskManager.EvictKeeps | src/mewcode/subagents/tasks.py:620-639 | Eviction keeps at most the retention limit of delivered tasks, removes only finished and delivered ones and changes no other |
| TaskManager.ResetLosesSlotsIff | src/mewcode/subagents/tasks.py:297-316 | Clearing the table loses no slot if and only if no record is still active |
| TaskManager.ResetCanLoseASlot | src/mewcode/subagents/tasks.py:297-316 | Concrete run of a loss: a task past its deadline that is hard-cancelled inside its `finally` block |
| TaskManager.LostSlotsStayOccupied | src/mewcode/subagents/tasks.py:297-316 | A lost slot stays occupied whatever happens later |
| TaskManager.RunLosesNothingIff | src/mewcode/subagents/tasks.py:297-316 | A run from the beginning loses a slot if and only if one of its steps clears the table while a record is still active |
| TaskManager.GentleStepKeepsAttended | src/mewcode/subagents/tasks.py:641-678 | When no coroutine is cancelled where nobody else would commit for it, every active task keeps somebody who will, and reset waits for all of them |
| TaskManager.GentleResetLosesNothing | src/mewcode/subagents/tasks.py:297-316 | In such a state reset loses no slot, unless a caller of `cancel` is still at work |
| TaskManager.GentleRunsLoseNothing | src/mewcode/subagents/tasks.py:297-316 | No run from the beginning loses a slot if it never cancels a coroutine where nobody else would commit for it and no caller of `cancel` is at work when a reset clears |
| SubagentTasks.SubagentTaskManager.CheckStart | src/mewcode/subagents/tasks.py:176-191 | A start that is let through has a fresh id, room below the limit of active tasks, and in the foreground no other active foreground task; it is refused as bound only when there is such a task |
| SubagentTasks.SubagentTaskManager.Start | src/mewcode/subagents/tasks.py:175-223 | A start that succeeds registers the task with a lease that is an open slot of the pool, in the foreground as the one foreground task; one that fails leaves records and foreground as they were |
| SubagentTasks.SubagentTaskManager.BeginDrive | src/mewcode/subagents/tasks.py:345-354 | The late RUNNING write never touches a finished record |
| SubagentTasks.SubagentTaskManager.PassDeadline | src/mewcode/subagents/tasks.py:373-387 | The coroutine sees a timeout if and only if one is recorded, and never together with a requested cancellation |
| SubagentTasks.SubagentTaskManager.RequestCancel | src/mewcode/subagents/tasks.py:258-288 | An accepted request is recorded, excludes a timeout and has a caller who will commit; any other result changes nothing |
| SubagentTasks.SubagentTaskManager.DecideStatus | src/mewcode/subagents/tasks.py:504-530 | The status is final; a task whose cancellation was requested ends cancelled or completed unless a failure is to be kept; only a completed outcome completes, and nobody is cancelled unasked |
| SubagentTasks.SubagentTaskManager.CommitTerminal | src/mewcode/subagents/tasks.py:504-569 | Afterwards the record is finished: one that already was is left alone, any other gives up foreground and lease, which its caller closes |
| SubagentTasks.SubagentTaskManager.FinishDrive | src/mewcode/subagents/tasks.py:406-440 | After the driving coroutine the record, if still there, is finished with the status that timeout, request, driver and execution decide; it holds no lease and is not in the foreground |
| SubagentTasks.SubagentTaskManager.FinishCancel | src/mewcode/subagents/tasks.py:276-288 | After `cancel` the record, if still there, is cancelled or completed, holds no lease and is not in the foreground |
| SubagentTasks.SubagentTaskManager.CloseLease | src/mewcode/subagents/tasks.py:560-569 | The slot of a lease taken out of a record is free afterwards |
| SubagentTasks.SubagentTaskManager.DetachForeground | src/mewcode/subagents/tasks.py:233-250 | A task is detached if and only if it is the current foreground task; then there is none |
| SubagentTasks.SubagentTaskManager.MarkDelivered | src/mewcode/subagents/tasks.py:620-639 | Delivery clears the pending flag and evicts; active tasks are untouched |
| SubagentTasks.SubagentTaskManager.BeginReset | src/mewcode/subagents/tasks.py:297-303 | Reset begins by refusing new starts and collecting the active tasks |
| SubagentTasks.SubagentTaskManager.FinishReset | src/mewcode/subagents/tasks.py:304-316 | and ends by clearing every table; no slot is lost if and only if no task is active |
| AgentLoop.RunIsBounded | src/mewcode/agent/runner.py:250-259 | For every sequence of responses and failures the run has an outcome, at most `max_iterations - 1` tool batches outside PLAN and at most the investigation limit in PLAN, and an unseeded run never falls through its loop |
| AgentLoop.FallsThroughIff | src/mewcode/agent/runner.py:250-259 | A sequence that ends without a stop reason exists if and only if the loop limit does not exceed what the configured limits allow: a seeded run with a smaller limit |
| AgentLoop.IteratePace | src/mewcode/agent/runner.py:259-698 | Each iteration keeps the count of tool batches within the iterations, and those within the limits |
| AgentOutcomes.IterationStops | src/mewcode/agent/runner.py:259-698 | An iteration goes on if and only if none of the listed reasons to stop applies, and otherwise stops for the first: cancellation, inbound, preparation, stream, kind of finish, answer, tool round |
| AgentOutcomes.RunBegins | src/mewcode/agent/runner.py:190-258 | A run begins with the history, or the seed in its place, and the user message, and may take as many turns as seed, plan or configuration say |
| AgentOutcomes.RunStopsFor | src/mewcode/agent/runner.py:250-734 | Every run stops at its first turn for which a reason applies, with the first such reason, found from that turn, the number of turns before it and the streaks of unknown and denied rounds among them; a run whose turns all go on ends in an error |
| AgentOutcomes.RunPast | src/mewcode/agent/runner.py:546-696 | What a run that still goes knows is what its turns say: their number, the last rounds in a row that called only unknown tools, or were denied as a whole, and whether a plan is in its last phase |
| AgentOutcomes.AnswerIsStored | src/mewcode/agent/runner.py:458-536 | A run that ends Completed has stored a non-blank answer, last in the committed history and in the new messages; one that ends EmptyResponse got a blank answer and stored nothing of it |
| AgentOutcomes.NaturalAnswerCompletes | src/mewcode/agent/runner.py:498-536 | Outside PLAN a stored natural answer with text ends the run Completed, with this answer last |
| AgentOutcomes.InvestigationIsStored | src/mewcode/agent/runner.py:498-521 | The natural answer of an investigation is stored, held back from requests, and the plan comes to its last phase |
| AgentOutcomes.RoundIsStored | src/mewcode/agent/runner.py:602-644 | A tool round after which the run goes on, or stops for the round itself, is stored whole at the end of history and new messages |
| AgentOutcomes.BatchIsStored | src/mewcode/agent/runner.py:272-299 | A batch after which the run goes on is stored behind the history, and the user message before it |
| AgentOutcomes.RefusedBatchIsNotStored | src/mewcode/agent/runner.py:272-299 | A batch that the sink refuses ends the run with nothing of it stored |
| AgentOutcomes.CompactionIsStored | src/mewcode/agent/runner.py:358-403 | A compaction after which the run goes on is stored at once, with held-back answers and without a user message that no answer was stored for |
| AgentHistory.CommittedHistoriesArePaired | src/mewcode/agent/runner.py:736-745 | Every history that a run commits is fully paired through tool rounds, plan finalization, compaction and mailbox batches, given good responses and one execution per call |
| AgentHistory.IterateKeeps | src/mewcode/agent/runner.py:259-698 | Each iteration keeps all committed histories and the working one paired, its markers at the head and its groups those of past iterations |
| AgentHistory.CommittedRoundPairedIff | src/mewcode/agent/runner.py:607-644 | The history committed after a tool round is paired if and only if the results have distinct ids, the same as the calls |
| AgentHistory.CommittedIsHistoryAndNew | src/mewcode/agent/runner.py:764-793 | Without mailbox batches and compaction the committed history is the first history followed by the new messages of the outcome, or untouched when there are none |
| AgentHistory.IterateConserves | src/mewcode/agent/runner.py:259-698 | Each iteration keeps that equation, also while messages of a plan investigation are held back |
| AgentHistory.InboundAppends | src/mewcode/agent/runner.py:288-299 | Outside PLAN the candidate of a mailbox batch is always what is stored followed by the batch, through compactions and earlier batches: the condition that the sink checks |
| AgentHistory.InboundExtendsIff | src/mewcode/agent/runner.py:288-299 | In every run of either mode, through compactions and batches whose sink accepts only extensions, the candidate of a batch extends what is stored if and only if no investigation answer is held back; one is only in PLAN, when finalizing |
| AgentHistory.PlanInboundFails | src/mewcode/agent/runner.py:288-299 | With such an answer held back, a batch ends the run with a persistence error |
| AgentHistory.PlanInboundEndsRun | src/mewcode/agent/runner.py:288-299 | Concrete PLAN run that ends so: any natural investigation answer, then any batch |
| AgentHistory.GroupsDiffer | src/mewcode/agent/runner.py:607 | Rounds of one run never share a group id |
| AgentHistory.DecimalInjective | src/mewcode/agent/runner.py:607 | because decimal numerals of different numbers differ |
| AgentRuns.AgentRun.FinishRun | src/mewcode/agent/runner.py:764-793 | The outcome is set once, with the produced and the committed messages of that moment |
| AgentRuns.AgentRun.Commit | src/mewcode/agent/runner.py:736-745 | A stored candidate becomes the committed history; a failing sink ends the run |
| AgentRuns.AgentRun.RecordUser | src/mewcode/agent/runner.py:505-507 | The user message enters the new messages once |
| AgentRuns.AgentRun.PollInbound | src/mewcode/agent/runner.py:272-299 | The stage that polls, commits and acknowledges, with each of its failures |
| AgentRuns.AgentRun.PrepareContext | src/mewcode/agent/runner.py:358-403 | The stage that prepares the context: compaction is committed before a refusal ends the run |
| AgentRuns.AgentRun.CommitAnswer | src/mewcode/agent/runner.py:500-508 | A committed answer enters the new messages, after the user message if that was not stored; a failing sink ends the run instead |
| AgentRuns.AgentRun.FinishPlan | src/mewcode/agent/runner.py:458-496 | Plan finalization: error for a call, empty response for a blank text with nothing stored, otherwise completion with answer and investigation messages committed |
| AgentRuns.AgentRun.HandleNatural | src/mewcode/agent/runner.py:498-536 | A natural end: another phase in PLAN; otherwise a blank text is an empty response that stores nothing, and a stored answer with text completes the run and is last in what is committed and produced |
| AgentRuns.AgentRun.RunTools | src/mewcode/agent/runner.py:556-600 | The tool stage up to its schedule, with cancellation |
| AgentRuns.AgentRun.StoreRound | src/mewcode/agent/runner.py:602-644 | A round is archived, grouped, committed and appended |
| AgentRuns.AgentRun.StopAfterRound | src/mewcode/agent/runner.py:646-696 | The order of the checks after a round: pause, cancellation, unknown tools, denials, investigation limit |
| AgentRuns.AgentRun.HandleResponse | src/mewcode/agent/runner.py:433-696 | The order of the checks on a response |
| AgentRuns.AgentRun.RunIteration | src/mewcode/agent/runner.py:259-698 | One iteration is that of the lemmas: it counts once, keeps tool batches within the iterations and the limits, and keeps committed and working histories paired for good inputs |
| AgentRuns.AgentRun.Events | src/mewcode/agent/runner.py:212-734 | A run is consumed once; a second consumer is refused and changes nothing; otherwise it ends with an outcome within its limit of tool batches, every history it committed is paired (good inputs, paired start), and without mailbox batches and compaction it committed the first history and the new messages |
| ProviderMessages.CallIdsOf | src/mewcode/providers/anthropic_provider.py:102-130 | The messages of a response with calls carry exactly the ids of its calls, in order, and no result id (for both providers) |
| ProviderMessages.ResultIdsOf | src/mewcode/providers/anthropic_provider.py:132-154 | The messages of the executions carry exactly their ids as results, in order, and no call id (for both providers) |
| ProviderMessages.PlainResponse | src/mewcode/providers/anthropic_provider.py:102-130 | A response without calls yields at least one message, all plain assistant messages of the given group (for both providers) |
| ProviderMessages.AnthropicKeeps | src/mewcode/providers/anthropic_provider.py:102-130 | The message of a response holds its internal items, its text and each of its calls, in order |
| ProviderMessages.ResultsAreKept | src/mewcode/providers/anthropic_provider.py:132-154 | Each execution is answered under its id with its output, in order, and marked as an error exactly when it failed (for both providers) |
| ProviderMessages.OpenAIKeeps | src/mewcode/providers/openai_provider.py:174-228 | The messages of a response in order: its internal items, its text, each of its calls |
| ProviderMessages.RoundShape | src/mewcode/providers/openai_provider.py:174-228 | The messages of a round share one group, hold a tool message, put calls before results, have roles and contain no marker (for both providers) |
| ProviderMessages.RoundPairedIff | src/mewcode/providers/openai_provider.py:174-228 | A round is paired if and only if its results have distinct ids, the same as its calls (for both providers) |
| ProviderMessages.OneEachPairs | src/mewcode/providers/openai_provider.py:174-228 | One execution per call makes the round paired (for both providers) |
| ToolSchedule.BatchesCoverRequests | src/mewcode/agent/scheduler.py:288-302 | The batches concatenate back to the indexed requests; none is empty; only reads share a batch |
| ToolSchedule.Partition | src/mewcode/agent/scheduler.py:288-302 | The loop that grows a read batch builds these batches |
| ToolSchedule.OneExecutionEach | src/mewcode/agent/scheduler.py:88-261 | A schedule that is not cancelled ends with exactly one execution for each request, in request order, under the id of its request |
| ToolSchedule.OneEachIff | src/mewcode/agent/scheduler.py:88-286 | A schedule, cancelled or not, that ends with its executions has exactly one for each request, in order, if and only if it lost no call |
| ToolSchedule.ExecutionsCarryAnswers | src/mewcode/agent/scheduler.py:88-286 | Each execution carries its request and the output and flags with which some event settled that very call |
| ToolSchedule.AlwaysOneEachIff | src/mewcode/agent/scheduler.py:88-353 | The condition known beforehand: all runs of a schedule that end with executions answer each request once if and only if no request is read-only |
| ToolSchedule.AtMostOneExecution | src/mewcode/agent/scheduler.py:263-286 | A cancelled one has at most one execution for each request |
| ToolSchedule.CallsKeepOrder | src/mewcode/agent/scheduler.py:310-353 | At most the pool size of calls run at once; a call with side effects runs alone, after all earlier requests are settled and before any later one is begun, and no read crosses it |
| ToolSchedule.OnlyOnePrepared | src/mewcode/agent/scheduler.py:237-246 | In a batch of one call `prepared[0]` is its only prepared call, so nothing is dropped |
| ToolSchedule.PlacesAreIndices | src/mewcode/agent/scheduler.py:260-261 | Sorted by index, the executions stand at the places of their requests |
| ToolSchedule.SortedIs | src/mewcode/agent/scheduler.py:260-261 | Sorting keeps the entries |
| ToolSchedule.StepKeeps | src/mewcode/agent/scheduler.py:88-383 | Every step keeps the accounting: each request before the cursor is answered, lost or prepared, exactly one of them |
| ToolSchedule.RunKeeps | src/mewcode/agent/scheduler.py:88-383 | So does every run |
| ToolSchedule.NeverStuck | src/mewcode/agent/scheduler.py:88-383 | A schedule that has not ended can always take a step other than a cancellation |
| ToolSchedule.StepShrinks | src/mewcode/agent/scheduler.py:88-383 | Every such step leaves less to do |
| ToolSchedule.MovesAreBounded | src/mewcode/agent/scheduler.py:88-383 | so a run over `n` requests makes at most `6 n` of them |
| ToolSchedule.CancelCanLoseACall | src/mewcode/agent/scheduler.py:263-340 | For every schedule with a read, a run in which it is cancelled and ends without an answer to a read, whose task never took a step |
| ToolSchedule.ToolRun.AnswerCall | src/mewcode/agent/scheduler.py:105-234 | A call answered at once (invalid, denied, cancelled or a control operation) is completed |
| ToolSchedule.ToolRun.CheckCall | src/mewcode/agent/scheduler.py:105-113 | The walk comes to the next call unless a cancellation was requested |
| ToolSchedule.ToolRun.PrepareCall | src/mewcode/agent/scheduler.py:223-235 | A call the walk has come to is prepared, also when a cancellation arrives meanwhile |
| ToolSchedule.ToolRun.EndBatch | src/mewcode/agent/scheduler.py:237-254 | The batch ends where the partition says |
| ToolSchedule.ToolRun.LaunchPrepared | src/mewcode/agent/scheduler.py:237-246 | A read batch starts all its prepared calls, any other batch its one |
| ToolSchedule.ToolRun.TakePermit | src/mewcode/agent/scheduler.py:355-365 | A pooled read begins only with a permit |
| ToolSchedule.ToolRun.LeavePool | src/mewcode/agent/scheduler.py:310-340 | A read that leaves the pool is neither waiting nor running |
| ToolSchedule.ToolRun.FinishPooled | src/mewcode/agent/scheduler.py:310-340 | A finished pooled read is completed under its index |
| ToolSchedule.ToolRun.FinishAlone | src/mewcode/agent/scheduler.py:342-353 | The lone call is completed under its index |
| ToolSchedule.ToolRun.RequestCancel | src/mewcode/agent/scheduler.py:263-276 | Cancellation only sets the flag, at any time |
| ToolSchedule.ToolRun.LoseTask | src/mewcode/agent/scheduler.py:310-340 | A cancelled task without a first step leaves no execution |
| ToolSchedule.ToolRun.LoseAlone | src/mewcode/agent/scheduler.py:342-353 | For a call that runs alone this ends the schedule as failed |
| ToolSchedule.ToolRun.GetExecutions | src/mewcode/agent/scheduler.py:278-282 | Executions are given exactly when the schedule ended well; they are one for each request, in order, if and only if no call was lost, and always when it was not cancelled |
| ToolSchedule.ToolRun.SortCompleted | src/mewcode/agent/scheduler.py:260-261 | The final order is by index |
| HistorySelection.RecentIsShortest | src/mewcode/context/summary.py:64-111 | The recent part is the shortest suffix of whole groups with enough tokens and enough messages, both, or everything |
| HistorySelection.RecentStartUnique | src/mewcode/context/summary.py:64-111 | Only one start has this property |
| HistorySelection.SelectionLosesNothing | src/mewcode/context/summary.py:64-111 | Markers stay in the early part, early and recent ordinary messages together are the original ones in order, and the early part is not empty |
| HistorySelection.AtomicGroups | src/mewcode/context/summary.py:302-316 | The loop splits into the groups of equal group id, each other message alone |
| HistorySelection.ListOrdinary | src/mewcode/context/summary.py:64-75 | The loop lists each ordinary message with its place |
| HistorySelection.RecentGroups | src/mewcode/context/summary.py:76-92 | The walk from the last group stops at the start characterised above |
| HistorySelection.EarlyMessages | src/mewcode/context/summary.py:93-111 | The early messages in order, markers included |
| HistorySelection.RecentMessages | src/mewcode/context/summary.py:93-111 | The recent ordinary messages in order |
| HistorySelection.SelectRecent | src/mewcode/context/summary.py:64-111 | The whole method computes the selection characterised above |
| HistorySelection.CompactedShape | src/mewcode/context/summary.py:275-282 | A compacted history is the summary marker with its text, the boundary marker and exactly the recent messages |
| HistorySelection.CompactionKeepsPairing | src/mewcode/context/summary.py:243-282 | Compacting a paired history whose markers are at its head gives another such history |
| HistorySelection.CompactionIsFixedPoint | src/mewcode/context/summary.py:243-282 | A compacted history cannot be compacted again: nothing changes whatever the next summary would say |
| TokenBudget.TakenTokens | src/mewcode/context/estimator.py:22-44 | A prefix or suffix never costs more than its budget and costs it exactly when something was cut |
| TokenBudget.TokensAre | src/mewcode/context/estimator.py:15-19 | A text is estimated at a quarter of its weight, rounded up; an ASCII character weighs one, any other four |
| TokenBudget.TakePrefixLoop | src/mewcode/context/estimator.py:22-31 | The loop takes the longest prefix that the budget pays for |
| TokenBudget.TakeSuffixLoop | src/mewcode/context/estimator.py:34-44 | The loop takes the longest suffix that the budget pays for |
| TokenBudget.PreviewMeetsBudget | src/mewcode/context/tool_results.py:185-202 | Head and tail of a preview are a prefix and a suffix of the payload, their estimates together never exceed the budget and equal it exactly unless they cover the payload |
| TokenBudget.PreviewPartsLoop | src/mewcode/context/tool_results.py:185-202 | The method computes these parts; its two refill branches can never be taken |
| ToolResults.SelectionIsGreedy | src/mewcode/context/tool_results.py:44-66 | Every oversize result is selected, beyond those only the largest (earlier calls first), and the simulated total fits the batch limit or everything is selected |
| ToolResults.SelectionIsLeast | src/mewcode/context/tool_results.py:44-66 | Not one more than needed: without its last chosen result the total is still over the batch limit |
| ToolResults.NothingSelectedIff | src/mewcode/context/tool_results.py:44-66 | Nothing is archived if and only if no result is oversize and the sizes together are within the batch limit |
| ToolResults.ArchivingOne | src/mewcode/context/tool_results.py:38-44 | Archiving one more result replaces its size in the total by that of its placeholder |
| ToolResults.ArchivedOne | src/mewcode/context/tool_results.py:178-182 | and in the measured total by that of its archived form |
| ToolResults.AscendingIs | src/mewcode/context/tool_results.py:72-84 | The recorded places are the selected ones, each once, in ascending order |
| ToolResults.CeilingIs | src/mewcode/context/tool_results.py:90-100 | One step takes from each preview its share of the excess, rounded up |
| ToolResults.CompactionSettles | src/mewcode/context/tool_results.py:67-114 | The number and order of results and every unselected one are kept, every oversize one is archived, and the batch ends within its limit or with empty previews |
| ToolResults.ToolResultCompactor.SimulatedTotal | src/mewcode/context/tool_results.py:38-44 | The total of the batch with the selected results archived |
| ToolResults.ToolResultCompactor.CountTokens | src/mewcode/context/tool_results.py:178-182 | The total of the batch at a preview budget |
| ToolResults.ToolResultCompactor.Select | src/mewcode/context/tool_results.py:44-66 | The loop over candidates selects the set characterised above |
| ToolResults.ToolResultCompactor.ArchiveAll | src/mewcode/context/tool_results.py:67-84 | Every selected result is archived in order, or none is recorded |
| ToolResults.ToolResultCompactor.Compact | src/mewcode/context/tool_results.py:26-114 | A failed archive write changes nothing; otherwise the result is the settled batch characterised above |
| Notifications.RenderNotifications | src/mewcode/subagents/notifications.py:114-145 | The shrink loop terminates and gives the text that the lemmas speak about |
| Notifications.ShrinkFitsIff | src/mewcode/subagents/notifications.py:127-145 | The shrink loop ends with a text that fits if and only if the bare marker in place of the result would fit |
| Notifications.ShorterIsSmaller | src/mewcode/subagents/notifications.py:127-145 | A shorter result never needs more bytes |
| Notifications.AdvancesIff | src/mewcode/subagents/notifications.py:74-107 | The queue advances if and only if its head fits whole or with its result replaced by the marker |
| Notifications.HeadBlocksIff | src/mewcode/subagents/notifications.py:74-107 | A batch is empty, whatever waits behind, if and only if the head cannot be carried |
| Notifications.LongErrorBlocks | src/mewcode/subagents/notifications.py:74-145 | Concrete input: an error of 20,000 ampersands takes 100,000 bytes of the 65,536 of a batch, and nothing is delivered any more |
| Notifications.BatchObeysLimits | src/mewcode/subagents/notifications.py:74-107 | A batch is a prefix of the pending notifications, obeys both limits, and its text is the rendering of exactly that prefix |
| Notifications.RenderedIsFramed | src/mewcode/subagents/notifications.py:114-190 | Whatever tasks report, the text is one frame that is opened and closed once: no bracket stands inside |
| Notifications.EscapeReadsBack | src/mewcode/subagents/notifications.py:148-179 | A reader of the escaped text sees the original |
| Notifications.OneShows | src/mewcode/subagents/notifications.py:148-179 | A notification is rendered as the lines of its task, status, role, usage, result, error, worktree and truncation, each text escaped and only labels cut |
| Notifications.RenderShows | src/mewcode/subagents/notifications.py:114-145 | A text that fits, or of several notifications, is the frame around all of them; one too large alone keeps a beginning of its result before the marker, and fits unless nothing of the result is left |
| Notifications.PartsJoin | src/mewcode/subagents/notifications.py:114-126 | Several notifications are rendered as the texts of each, with an empty line between |
| Notifications.BoundedKeeps | src/mewcode/subagents/notifications.py:196-215 | The queue keeps of a notification its first 128 characters of labels and 20,000 of result and error, marks it when cut, and keeps the rest whole |
| Notifications.EscapedHasNoMarkup | src/mewcode/subagents/notifications.py:114-190 | Escaped text holds no bracket and no quotation mark |
| Notifications.NotificationQueue.EnqueueOnce | src/mewcode/subagents/notifications.py:67-72 | A notification is accepted if and only if its task was not accepted since the last clear; accepted ones queue up in order |
| Notifications.NotificationQueue.TakeFront | src/mewcode/subagents/notifications.py:88-107 | The batch moves from pending to delivered |
| Notifications.NotificationQueue.ConsumeBatch | src/mewcode/subagents/notifications.py:74-107 | Delivered followed by pending stays the order of first acceptance, without a task twice; the callback is told each delivered task once, in order |
| Notifications.NotificationQueue.Clear | src/mewcode/subagents/notifications.py:109-111 | Clearing forgets pending and known tasks |
| GlobRegex.CompiledMeansTokens | src/mewcode/matching.py:90-141 | For every valid pattern without a descending range, in both modes, the expression text that is compiled accepts a subject if and only if a direct recursive matcher over the tokens does |
| GlobRegex.ItemsMeanTokens | src/mewcode/matching.py:90-133 | The same for the items of the expression, by recursion over the pieces of the pattern: `*`, `**`, `**/`, `?`, classes, escapes |
| GlobRegex.ReadBack | src/mewcode/matching.py:90-133 | Reading the compiled text by the rules of the expression language gives its pieces back: no character of the pattern is misread as syntax |
| GlobRegex.CompiledText | src/mewcode/matching.py:90-133 | The compiled text is an expression if and only if no range of a class runs downwards |
| Globs.RangeFreeClass | src/mewcode/matching.py:103-121 | A class without a `-` between other members accepts exactly its members |
| Globs.PieceStep | src/mewcode/matching.py:98-132 | The first piece of valid tokens leaves valid tokens, and a class has members |
| Globs.TokenizeGlob | src/mewcode/matching.py:24-42 | The scanning loop yields the tokens of the pattern or its error |
| Globs.ScanIff | src/mewcode/matching.py:24-42 | Tokens are scanned from a pattern if and only if they print to it, only special characters are escaped and every backslash is |
| Globs.ValidIff | src/mewcode/matching.py:45-67 | The class check passes if and only if every unescaped bracket opens or closes a class with at least one member and no bracket inside |
| Globs.ValidateCharacterClasses | src/mewcode/matching.py:45-67 | The loop finds the first fault of the classes |
| Globs.CompileClass | src/mewcode/matching.py:103-121 | The class loop ends at its closing bracket with the text of the members |
| Globs.CompilePiece | src/mewcode/matching.py:98-132 | One turn of the compile loop emits the text of one piece and skips its tokens |
| Globs.CompileGlob | src/mewcode/matching.py:90-133 | The compile loop emits the text whose meaning is proved above |
| GlobRegex.GlobFullmatch | src/mewcode/matching.py:136-141 | Invalid patterns and descending ranges are errors; otherwise the result is that of the matcher |
| GlobRegex.EscapeExactGlob | src/mewcode/matching.py:144-150 | The loop prints the escaped text |
| GlobRegex.ExactMatchesOne | src/mewcode/matching.py:70-74 | An exact pattern matches one text only, the one its tokens spell, in both modes |
| GlobRegex.ScanEscaped | src/mewcode/matching.py:144-150 | Scanning an escaped text gives one literal token per character |
| GlobRegex.EscapedMatchesOnlyItself | src/mewcode/matching.py:144-150 | The escaped text of a value is valid and matches a subject if and only if they are equal |
| GlobRegex.ExactGlobIsEscaped | src/mewcode/matching.py:70-74 | Conversely, every exact pattern is the escaped text of the value it matches |
| PermissionRules.ParseJoined | src/mewcode/permissions/rules.py:43-83 | A text `name(pattern)` parses to exactly these two parts, or to the error of its tool or pattern |
| PermissionRules.PrintParsed | src/mewcode/permissions/rules.py:43-83 | A parsed rule prints to the text it was read from |
| PermissionRules.ParsesIff | src/mewcode/permissions/rules.py:43-83 | A text is a rule if and only if it is `name(pattern)` with a known name and a readable, non-empty pattern; the rule has that name, pattern, effect and scope |
| PermissionRules.ExactRuleMatches | src/mewcode/permissions/rules.py:86-94 | A parsed exact rule matches a target, of any kind, if and only if tool and value are equal |
| PermissionRules.CandidatesAre | src/mewcode/permissions/rules.py:98-110 | The candidates are exactly the rules that match, and every rule was evaluated without error |
| PermissionRules.MatchFailsIff | src/mewcode/permissions/rules.py:86-121 | Matching a target raises if and only if a layer that is reached holds a rule of its tool whose pattern has a descending range |
| PermissionRules.DescendingRangeIsParsed | src/mewcode/permissions/rules.py:43-83 | Concrete rule that is parsed and raises when matched: `tool([z-a])` |
| PermissionRules.FindWinner | src/mewcode/permissions/rules.py:113-119 | The first greatest rule by specificity, deny before allow: no other candidate outranks it |
| PermissionRules.SpecificityMeans | src/mewcode/permissions/rules.py:113-119 | What makes a rule specific: no unescaped wildcard or class, then the characters that stand for themselves, then the depth of the path |
| PermissionRules.MatchMeans | src/mewcode/permissions/rules.py:98-121 | A match is a rule of the first layer with a rule that matches, outranked by no matching rule there and denying if one of its rank denies; there is none if and only if no rule matches |
| PermissionControl.PermissionController.MatchTarget | src/mewcode/permissions/rules.py:98-121 | The first layer with a candidate decides |
| PermissionControl.PermissionController.CollectCandidates | src/mewcode/permissions/rules.py:98-110 | The loop collects the matching rules of one layer in order |
| PermissionControl.PermissionController.AddSessionRule | src/mewcode/permissions/rules.py:141-154 | The session layer gets the exact rule once; other layers are untouched |
| PermissionRules.ExactRuleRoundTrip | src/mewcode/permissions/models.py:56-81 | The exact rule printed for a target parses back, to the same tool and the escaped value, if and only if the tool name can stand in a rule and the value is not empty |
| PermissionControl.SessionRuleAllows | src/mewcode/permissions/controller.py:50-103 | A session rule for a target allows it, whatever the other layers and the mode say |
| PermissionControl.DecisionMeans | src/mewcode/permissions/controller.py:50-103 | In every mode the outcome is Denied if and only if the first layer with a matching rule has a denying one that no other outranks; otherwise Allowed if and only if that layer is the session, the mode allows all, or it is default and some rule matches; and Ask in the rest |
| PermissionControl.ChoiceMeans | src/mewcode/permissions/controller.py:105-140 | What each choice decides and which layer it changes, with each failure |
| PermissionControl.SessionChoiceIsIdempotent | src/mewcode/permissions/controller.py:105-140 | Choosing the same for the session again changes nothing |
| PermissionControl.ChoiceAllowsForever | src/mewcode/permissions/controller.py:105-140 | After a successful SESSION or PERMANENT choice the target is allowed in every later state of store and mode |
| PermissionControl.SessionChoiceWorksIff | src/mewcode/permissions/controller.py:105-140 | A SESSION choice succeeds if and only if the tool name can stand in a rule and the value is not empty |
| PermissionControl.OthersGainNothing | src/mewcode/permissions/controller.py:105-140 | It changes no decision about a target with another tool or value |
| PermissionControl.PermanentChoiceIsLocal | src/mewcode/permissions/controller.py:105-140 | Unless its exact rule reads as a rule of another tool, a PERMANENT choice leaves decisions about other tools and values to the rules that the file held; one that could not be stored changes none |
| PermissionControl.PermanentOthersGainNothing | src/mewcode/permissions/controller.py:105-140 | so such a choice changes none at all when the file held the rules in memory |
| PermissionControl.PermanentReachesOthersIff | src/mewcode/permissions/controller.py:105-140 | A permanent choice about a target, stored in a file that holds the rules of the store, can change the decision about another tool or value if and only if its exact rule reads as a rule of another tool that does not fail to match everything |
| PermissionControl.BracketedToolLeaks | src/mewcode/permissions/controller.py:105-140 | Concrete names for that: a choice about a tool `a(b` fails, yet its written rule allows a tool `a`; no registered tool has such a name |
| PermissionControl.PermissionController.SetModeTo | src/mewcode/permissions/controller.py:32-33 | Only the mode changes |
| PermissionControl.PermissionController.EvaluatePreflight | src/mewcode/permissions/controller.py:50-103 | The decision for a target in the current state, with the meaning of `DecisionMeans` |
| PermissionControl.PermissionController.Apply | src/mewcode/permissions/controller.py:105-140 | Only an ask decision takes a choice; then state and decision are those of the choice |
| PermissionControl.StoredHasExact | src/mewcode/permissions/config.py:129-180 | A stored permanent choice leaves a readable file that extends the old one and holds the exact rule |
| PermissionControl.StoredIff | src/mewcode/permissions/config.py:129-180 | A permanent choice is stored if and only if the file can be read and holds the exact rule, or can be written and the rule parses; the old rules stay, with at most that one behind them |
| PermissionControl.PermanentSurvivesRestartIff | src/mewcode/permissions/config.py:129-180 | After a restart the target is allowed by the file if and only if the mode is not strict, every rule of the tool in the old file has ascending ranges, and none denied exactly this target |
| PermissionControl.DenyingFileOverrules | src/mewcode/permissions/config.py:129-180 | Concrete file that takes the choice and still denies the target after a restart |
| TeamCodec.RoundTrip | src/mewcode/teams/codec.py:80-203 | Every value of a well-formed schema (null, bool, int, string, time, enum, array, map, record, union of branches that are apart) decodes from its JSON to itself |
| TeamCodec.TextRoundTrip | src/mewcode/teams/codec.py:36-53 | and so does any text that prints it |
| TeamCodec.DecodeIffStandsFor | src/mewcode/teams/codec.py:104-203 | For every schema decoding returns a value if and only if the JSON stands for it, stated without the decoder: types match, fields that are missing have a default, no field is unknown, and of a union the first branch that fits counts |
| TeamCodec.DecodeIsSound | src/mewcode/teams/codec.py:104-203 | What decoding accepts, of any schema with typed defaults, has the type of the schema, prints to the JSON that was read with missing defaults filled in and times printed anew, and decodes to itself again |
| TeamCodec.MalformedIsRejected | src/mewcode/teams/codec.py:150-203 | Unknown fields and missing fields without default are errors at any depth |
| TeamCodec.PrintsBackIff | src/mewcode/teams/codec.py:80-203 | A decoded value prints to the very JSON it was read from if and only if every record in it had all its fields and every time was written as it is printed |
| TeamCodec.DecodeIffPrinted | src/mewcode/teams/codec.py:80-203 | On such JSON, for every schema, decoding returns a value if and only if the value has the type and prints to that JSON; on any JSON for schemas without defaults and times |
| TeamCodec.LoadIffPrints | src/mewcode/teams/codec.py:27-44 | Loading succeeds if and only if no object, at any depth, repeats a field |
| TeamCodec.ApartRejects | src/mewcode/teams/codec.py:113-121 | A branch that is apart from another rejects every value of the other |
| TeamCodec.UnionKeepsTypesIff | src/mewcode/teams/codec.py:113-121 | A union, apart or not, returns all its values unchanged if and only if for each value of each branch every earlier branch rejects its JSON or decodes it to that value |
| TeamCodec.OverlappingUnionLosesType | src/mewcode/teams/codec.py:113-121 | The codec itself does not demand this: an enumeration behind a string would come back as a string; no record of the program has such a union |
| TeamCodec.TaggedRoundTrip | src/mewcode/teams/codec.py:272-285 | A tagged mailbox record comes back with its tag and value, whatever the two schemas have in common |

## Left out

- AgentHistory.CommittedHistoriesArePaired: one execution per call is assumed of each turn; `OneEachIff` and `AlwaysOneEachIff` say exactly when a schedule gives it, and `CommittedRoundPairedIff` what happens without it.
- AgentHistory.CommittedHistoriesArePaired: the first history is assumed paired with its markers at its head, and without group ids of this run, since run ids are random.
- InboundDelivery.RunGuarantees: delivery excludes `reset_state` and PLAN runs, in which the sink refuses batches; one session per mailbox, and its agent marks messages only between turns.
- TaskManager.RunGuarantees: an id is only used again when its earlier coroutine has ended and no caller of `cancel` is at work on it, since ids are random; a driver, its events and its outcome are inputs.
- MemoryTransaction.CommitIsAtomic: one workspace with its locks held and no journal when the commit begins; the recovery after the crash is not interrupted (see `RollForwardIsReentrant` and `RollBackAgainIff` for interrupted ones).
- SessionStore.RunKeeps: commits of values that cannot be read back are outside; `CommitKeepsIff` is the exact condition for each commit.
- TeamCodec.DecodeIffStandsFor: a record class is taken to accept or refuse its decoded fields; a few also normalise them (`src/mewcode/teams/control.py:126`, `src/mewcode/teams/control.py:145-146`), which is not part of this model.
- TeamCodec.RoundTrip: branches of a union are apart; `UnionKeepsTypesIff` is the exact condition.
- GlobRegex.CompiledMeansTokens: the case-insensitive flag for paths on Windows is not modelled; descending ranges are, as errors.
- PermissionControl.PermanentSurvivesRestartIff: the YAML text of the file is a list of rule texts with their effects.
- In the runs of `SessionStore` a failed append is the last commit, although the program leaves the binding open: a later append would be glued to the fragment.
- Path validation of journal records, removal of orphaned files, directories, locks, fsync and permissions of files.
- Writing the index file while loading, the parsing and printing of note files, and the retry count of note ids.
- Choosing, listing, creating and expiring sessions, and the member variant of the session binding.
- The payload texts of mailbox messages beyond their bound, the digest of a batch, the outbox and wake-ups.
- `try_reserve` and reservations: a reservation is a lease handed over once.
- Progress events, foreground event streams, terminal events, diagnostics and truncation of task results.
- Hooks, subagent tool policies, permission prompts and control operations: their answers are inputs of the schedule.
- Token usage, the usage anchor of the estimator, prompt texts, request snapshots, summary requests and the parsing of summaries.
- A consumer that cancels a run while the event with its outcome is handed over.
- Archive files and their placeholders beyond their size.
- Notifications.RenderedIsFramed: status and usage lines are written by the program itself and hold no bracket.
- Usage lines and dates in notifications, and the request boundary that adds them to a request.
- Targets of permission rules: how a call becomes a tool name and a value.
- Floats, sets, tuples of fixed length and paths in the team codec, and the rejection of non-finite numbers.
- Command line, terminal, providers' transports, MCP, skills, catalogs, Git integration and worktrees.
