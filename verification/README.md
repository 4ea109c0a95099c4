# Pursers: transition protocols and their cores

A Dafny model of the parts of the repository that must survive being stopped half-way, being run
again, or being run by many at once, and of the algorithms they rest on. File contents and
documents are opaque values and SHA-256 is an injective function. `dafny verify dfyconfig.toml`
checks everything.

## What is modelled

**Cutover** (`CutoverJournal`, `CutoverInvariants`, `CutoverActivation`, `CutoverValidator`,
`CutoverToolkit`, `CutoverLayout`, `CutoverBackup`). Activation journals each step, replaces a list of live files
one at a time and journals the step again; rollback validates the journal and restores from backup.
Every journal append and every file write takes one unit of a budget, so each contract holds of every
state a crash can leave. `Coherent` ties the journal's shape to which live files differ from backup;
`Settled` is the live state any rollback is heading for. Before either, the rollback unit is copied to a
backup root.

**Marker hand-over** (`MarkerDisk`, `MarkerHandover`). A directory whose operations are lost from any
point on until it is fsynced, and files whose bytes are lost until they are. `Safe` says that every
crash state shows the fence or a whole marker and the imported domain bytes.

**Import** (`DocumentStore`, `NativeImport`, `ImportRunner`, `ImportJournal`). A transactional document
store in which a crash loses the open transaction, the resumable five-phase import on top of it, and the
import among other writers of the journal that holds its completion event.

**Event journal** (`EventJournal`), **identity binding** (`IdentityBinding`, `IdentityReconciled`) and
**reconciliation** (`Reconciliation`): numbering, compaction and cursors; the two operator-driven
transactions whose decisions are immutable; and what binding keeps while reconciliation takes records away
and puts them back.

**Full-gate admission** (`AdmissionQueue`). A state machine of any number of processes, each with the budget
it asks with, whose steps of reading a request, trying a slot, deciding and leaving interleave in any order,
with an abort or a death at any point.

**Algorithms** (`Scrub`, `TicketAudit`, `SafeTree`, `LockFile`, `LockPrinter`, `SuiteSelection`): span
selection and splicing, pagination against a server that may answer anything, two tree traversals, a
lock-file parser and printer, and fail-closed suite selection.

`Text`, `Sorting` and `Wrappers` hold the string, sorting and result types these share.

## What the code does not do

Nine statements one might expect hold only under a condition. Each has a run in which it fails, and the
condition is proved to be exact.

- The layout check compares identifiers as text (tools/o1_cutover.py:1458-1462), and `.` begins none of them, so an
  extra path may be backed up as `.`, the backup root itself, above every other member (`RootAccepted`). It is copied
  after the swap targets and can overwrite one's copy (`SmallestRootMember`); activation then finds the backup out of
  date. The copy is current if and only if no such member brings other bytes for a swap target (`CopyIsCurrent`).
- Activation refuses interrupted journals only (tools/o1_cutover.py:2762-2765). Over a journal whose
  steps have all been rolled back it goes ahead and leaves a journal that rollback refuses for good
  (`ActivateAgain`). What a started activation leaves is acceptable if and only if it started from an empty
  journal and the staged modes of the started steps lie in 1..0o777 (`RunActivate`, `SecondActivationRefused`).
- A hand-over attempt that finds everything done does not fsync the directory
  (packages/import/native_import.py:286-294). A marker it reports as existing can vanish in a power
  loss, with the fence back up, after two attempts that were stopped (`ReportedMarkerVanishes`). On any
  directory the attempts can have left, a reported marker survives every power loss if and only if it was
  durable before the attempt or something was left to do; the hand-over as a whole does if and only if the
  fence's removal was durable or something was left to do (`ArmPromotedMarker`).
- A further `promote` over a complete import looks for its completion event in a journal that others compact
  (packages/import/native_import.py:1508-1522, packages/import/journal.py:153-163). It changes nothing, and
  completes if and only if the event's number is above `compacted_through` and no other retained event bears its
  name (`PromoteAgain`). Compaction brings this about if and only if it retains fewer events than have been
  written from the completion event on (`PromoteAfterCompaction`).
- Reconciliation can put an agent record back after it was bound (packages/import/reconcile.py:298-312). It is
  then unbound, and no decisions file binds it again, because its decision is on file
  (packages/import/bind_identities.py:182-186). A bound record stays bound if and only if no later
  reconciliation touches it (`BoundUntilTouched`).
- A name redaction gave to a restored record resolves tickets like any other. When two records' names redact to the
  same text, a ticket can get the identity of the one that was restored first, and keeps it (`SharedRedaction`). From
  any board some binding run gives a ticket an identity under a name that is not the source's if and only if a record
  with this name, bound or undecided, is on the board, nobody shares the name and no two did in the source
  (`GainsExact`).
- An archive record is identified by a hash of its row's own identifier, or of the whole row
  (packages/import/native_import.py:841-851), and redaction can change both. A row decided under another identifier
  than its record's is on the board twice when it is decided again (`RedactedArchiveTwice`). Deciding a record again
  leaves the earlier decision's memory behind if and only if that decision put an archive row back that way
  (packages/import/reconcile.py:284-297, `LastDecisionWins`).
- An admission can take the turn of a request that joined while the admitted process was scanning
  (`LateJoinerOvertaken`). It disturbs no other admissible request if and only if no live request ahead needs the
  slot it takes, which with one budget in use is so if and only if the admitted request is itself admissible at
  that moment (`AdmissionLeavesOthers`). It is so in particular if every live request ahead was listed.
- A legacy lock's platform tag keeps trailing white space (tools/build_home_runtime_wheelhouse.py:223-232)
  while schema 2 lines are stripped, so that a refresh loses the section (`LegacyTagLost`,
  `SmallestLegacyTagLost`). A refresh keeps every other section if and only if the lock is not a legacy
  one with such a tag (`RefreshKeepsOthers`).

Branches proved unreachable: an empty platform tag in a schema 2 lock, a missing own position in the
queue, an empty selection without escalation, an empty binding decision, a version conflict
inside a transaction, and an existing entry in a fresh copy. `select_affected_suites` raises a plain
KeyError for a valid changed path that trimming would alter (`SelectUntrimmed`); the condition is part of
`SelectAffected`.

## Model

| member | source | states |
|---|---|---|
| CutoverToolkit.Toolkit.ActivateThenRollBack | tools/o1_cutover.py:2749-2913 | Main result: from an intact, current backup and an empty journal, activation stopped after any write or append followed by rollback stopped any number of times; a completed rollback leaves every swap target byte-equal to backup and every other file as it was before activation, and a last run with enough budget does complete |
| CutoverToolkit.Toolkit.RunActivate | tools/o1_cutover.py:2761-2817 | Activation stopped after any number of writes: journal and live files are exactly those of the point reached, nothing is written unless the backup is intact and current, and over an empty journal rollback accepts what is left if and only if the staged modes are in 1..0o777; over any other journal, well ordered or not, it never accepts what an activation that started a step leaves |
| CutoverToolkit.Toolkit.ActivateAgain | tools/o1_cutover.py:2761-2795 | Activation, a completed rollback, and activation again: the second one is not refused, and once it has journaled its first step no continuation of the journal is ever acceptable, whatever the live files |
| CutoverToolkit.Toolkit.ActivateStep | tools/o1_cutover.py:2778-2813 | One step journals its targets before its first write and `done` after its last, and stops in between at any write |
| CutoverToolkit.Toolkit.WriteTargets | tools/o1_cutover.py:2800-2809 | The files written are the first ones of the step, in order, each with the staged bytes and mode |
| CutoverToolkit.Toolkit.RunRollback | tools/o1_cutover.py:2859-2913 | Rollback stopped after any number of writes: a refused journal and the live files stay untouched; an accepted journal stays acceptable, exactly the first steps of the undo order get journaled as rolled back, and a run that is not stopped ends with nothing to undo and every swap target equal to backup |
| CutoverToolkit.Toolkit.RollBackRepeatedly | tools/o1_cutover.py:2859-2913 | Rollback is restartable: over any list of budgets the journal is only appended to, the steps to undo only shrink to a suffix, the final live state never changes, a run with enough budget completes, and with nothing to undo nothing changes |
| CutoverToolkit.Toolkit.RollBackOnce | tools/o1_cutover.py:2859-2913 | One more rollback of an acceptable journal, stopped anywhere: entries are only appended, the steps to undo lose some first ones, the final live state stays what it was, and the writes still to come never grow |
| CutoverToolkit.Toolkit.RestoreStep | tools/o1_cutover.py:2879-2900 | Restoring the first step of the undo order removes it and only it from the steps to undo, and keeps the journal acceptable wherever it stops |
| CutoverToolkit.Toolkit.RestoreTargets | tools/o1_cutover.py:2880-2898 | Restoring a step's files in reverse order keeps the journal acceptable at every single write and ends with all of the step's targets equal to backup |
| CutoverToolkit.Toolkit.BackupIsCurrent | tools/o1_cutover.py:884-914 | Over an intact backup the currency gate passes if and only if every swap target equals its backup member |
| CutoverToolkit.Toolkit.VerifyBackupIntegrity | tools/o1_cutover.py:834-881 | Passes if and only if the manifest lists every member of the rollback unit and every listed member has its recorded hash and mode |
| CutoverToolkit.WritesBounded | tools/o1_cutover.py:2879-2900 | An acceptable journal never takes more writes to undo than the configuration allows for |
| CutoverActivation.StoppedActivationAcceptable | tools/o1_cutover.py:2770-2813 | At every stopping point of an activation from an empty journal: acceptable to rollback if and only if every staged mode of a started step lies in 1..0o777 |
| CutoverActivation.StepsCoherent | tools/o1_cutover.py:2778-2813 | Any number of finished steps leaves a journal that meets every demand of the validator but the modes |
| CutoverActivation.StartedCoherent | tools/o1_cutover.py:2794-2809 | So does a started step with any number of its files written |
| CutoverActivation.NextTargetsMatch | tools/o1_cutover.py:2779-2792 | The targets the next step records match configuration and backup, because no earlier step touches them |
| CutoverActivation.StackedActivationRefused | tools/o1_cutover.py:2761-2765 | One that has started a step over any journal that is not empty leaves a journal rollback rejects, and so is every continuation of it |
| CutoverActivation.OutsideUntouched | tools/o1_cutover.py:2800-2806 | Activation changes configured live paths only |
| CutoverInvariants.AppendStarted | tools/o1_cutover.py:2794-2795 | Journaling the next step of the plan as started keeps the invariant |
| CutoverInvariants.AppendDone | tools/o1_cutover.py:2812-2813 | Journaling the step last started as done keeps the invariant |
| CutoverInvariants.AppendRolledBack | tools/o1_cutover.py:2899-2900 | Journaling the first step of the undo order as rolled back, once restored, keeps the invariant and takes just that step off the undo order |
| CutoverInvariants.SecondActivationRefused | tools/o1_cutover.py:1638-1649 | Once the first step of the plan is started over a journal that is not empty, no continuation of the journal is ever acceptable again |
| CutoverInvariants.PresentGrows | tools/o1_cutover.py:1608-1637 | A growing journal never loses a step it has, nor changes their order |
| CutoverInvariants.BaselineStays | tools/o1_cutover.py:1650-1654 | A step's baseline targets never change as the journal grows |
| CutoverInvariants.WriteActive | tools/o1_cutover.py:1690-1705 | Any write to a path of a step still to be undone keeps the quiet steps equal to backup |
| CutoverInvariants.Backed | tools/o1_cutover.py:1690-1705 | Acceptance implies that every swap has a backup member |
| CutoverInvariants.SettledWrite | tools/o1_cutover.py:2891 | A write to a target still to be undone, with any bytes, does not move the state rollback is heading for |
| CutoverInvariants.SettledRetire | tools/o1_cutover.py:2899-2900 | Neither does retiring a restored step |
| CutoverInvariants.RestEqualsBackup | tools/o1_cutover.py:2874-2876 | An acceptable journal with nothing to undo has every swap target equal to backup, restored or untouched |
| CutoverInvariants.RestIsGoal | tools/o1_cutover.py:2874-2876 | With nothing left to undo, the live state is the one rollback was heading for |
| CutoverJournal.UndoRetire | tools/o1_cutover.py:1586-1597 | A rolled_back entry removes the first step of the undo order and nothing else |
| CutoverJournal.UndoFrame | tools/o1_cutover.py:1586-1597 | A step's place in the undo order depends on its own last state only |
| CutoverValidator.ValidateRollbackJournal | tools/o1_cutover.py:1600-1834 | For an arbitrary journal: no problem is found if and only if the journal is acceptable and the steps are the active ones in reverse order of first appearance; the targets handed to the restore loop are each step's first recorded ones |
| CutoverValidator.StepsToUndo | tools/o1_cutover.py:1586-1597 | The selection equals the validator's own reverse order of steps whose last state is started or done |
| CutoverValidator.ReverseActiveIsUndo | tools/o1_cutover.py:1679-1689 | Reversing the active steps of the terminal-state table is the undo order |
| CutoverValidator.CheckProgressions | tools/o1_cutover.py:1638-1654 | No problem if and only if every step's states form one of the four progressions and its targets never change |
| CutoverValidator.CheckAdvance | tools/o1_cutover.py:1669-1677 | No problem if and only if every step but the last present one was done |
| CutoverValidator.AdvancedIsDone | tools/o1_cutover.py:1669-1677 | Within a valid progression the last activation state is done exactly when the step was ever done |
| CutoverValidator.CheckQuiet | tools/o1_cutover.py:1690-1705 | No problem if and only if every target of an absent or rolled-back step equals backup |
| CutoverValidator.CheckTargets | tools/o1_cutover.py:1711-1820 | No problem if and only if every entry's targets match the step's swaps one to one in every recorded attribute |
| CutoverValidator.CheckEntryTargets | tools/o1_cutover.py:1715-1820 | The same for one entry: the duplicate, missing, extra, malformed and count checks together amount to a one-to-one match |
| CutoverLayout.ValidateLayout | tools/o1_cutover.py:1441-1462 | Accepts exactly the layouts whose live targets are distinct and whose normalized identifiers are safe, distinct and none, with a slash after it, the beginning of another |
| CutoverLayout.HasNoCollision | tools/o1_cutover.py:1458-1462 | The sorted pairwise scan finds no problem if and only if no identifier is duplicated or, with a slash after it, begins another |
| CutoverLayout.LookAheadIsEnough | tools/o1_cutover.py:1458-1461 | In sorted order comparing each identifier with the later ones alone misses no collision |
| CutoverLayout.UnitIsSwapsAndExtra | tools/o1_cutover.py:1046-1090 | The rollback unit is the swaps' identifiers and live paths, in order, plus the extra members |
| CutoverLayout.BackupIsAFunction | tools/o1_cutover.py:740-759 | In an accepted layout each swap target has one backup member, below the backup root; another member lies on, above or below it if and only if that member is `.`, the backup root itself |
| CutoverLayout.MeetingMembers | tools/o1_cutover.py:1441-1462 | Two members lie on, above or below each other if and only if the textual scan finds a collision or one of them is `.` |
| CutoverLayout.AcceptedIsWellFormed | tools/o1_cutover.py:1441-1462 | An accepted layout gives activation and rollback the configuration their results rest on |
| CutoverBackup.BackupRoot.CopyRollbackUnit | tools/o1_cutover.py:793-819 | Members are copied in order, a directory with every file below it, and it stops at one that is missing or would have to replace a directory or lie below a file |
| CutoverBackup.CopyIsCurrent | tools/o1_cutover.py:793-819 | A finished copy of an accepted layout, into any backup root, equals every swap target if and only if no directory backed up as `.` brings other bytes for the place of one |
| CutoverBackup.CopiedAt | tools/o1_cutover.py:801-814 | After any number of members from its own on, a swap target's place holds its live file, or what the member `.` has copied over it |
| CutoverBackup.RootAccepted | tools/o1_cutover.py:1441-1462 | A layout with one more extra path backed up as `.` is accepted if and only if it is without it and has no other such path |
| CutoverBackup.RootSpoils | tools/o1_cutover.py:801-814 | Any accepted layout that has been copied is still accepted and copied with such a path, and loses any swap target its directory has other bytes for |
| CutoverBackup.SmallestRootMember | tools/o1_cutover.py:801-814 | Three fixed files and a directory backed up as `.` that holds its own `jwks/jwks.json`: accepted, copied, and not current |
| Text.PrefixOfParts | tools/o1_cutover.py:1460 | The text test for `identifier + "/"` is the test for a proper prefix of the parts between slashes |
| MarkerHandover.BoardDirectory.ArmPromotedMarker | packages/import/native_import.py:276-351 | One hand-over attempt stopped after any operation: every crash state keeps the fence or a whole marker, no attempt refuses a state an earlier one left, it stops short if and only if the budget is below what is left to do, and an attempt that is not stopped ends with the marker, no fence, no temporary file and domain bytes unchanged. The marker it reports survives every power loss if and only if it was durable before or something was left to do; the hand-over does if and only if the fence was durably gone or something was left to do |
| MarkerHandover.BoardDirectory.RunSchedule | packages/import/native_import.py:239-351 | Over every schedule of interrupted attempts, failing writes and power losses the directory stays safe and only attempts whose write fails refuse; a last attempt completes the hand-over with a budget of eight operations and one for every temporary file the directory or the schedule can have left |
| MarkerHandover.BoardDirectory.CleanupTemps | packages/import/native_import.py:239-248 | Leftover temporary files go, and nothing else |
| MarkerHandover.BoardDirectory.InstallMarker | packages/import/native_import.py:305-328 | The marker appears only as a whole file whose bytes are durable |
| MarkerHandover.BoardDirectory.LiftFence | packages/import/native_import.py:331-337 | The fence goes only once the marker is durable, which keeps every crash state fenced |
| MarkerHandover.BoardDirectory.LosePower | packages/import/native_import.py:331-333 | A power loss at any point keeps a directory safe for every promotion it was safe for, adds no temporary name, and takes away no marker and no hand-over that is proof against power losses |
| MarkerHandover.SafeTransition | packages/import/native_import.py:383-389 | In a safe directory the transition hash is that of the imported snapshot |
| MarkerHandover.SafeSource | packages/import/native_import.py:378-380 | While the fence is up the source hash is that of the imported snapshot |
| MarkerHandover.FrozenIsSafe | packages/import/native_import.py:276-283 | A frozen board with durable, unchanged files is where the invariant starts |
| MarkerHandover.ReportedMarkerVanishes | packages/import/native_import.py:286-294 | On every frozen board: one attempt stopped after its rename, one after unlinking the fence, a third that reports the marker as existing, and a power loss after which the marker is gone and the fence is up |
| MarkerHandover.SmallestBoardVanishes | packages/import/native_import.py:286-294 | That run on a board with nothing but a fence |
| MarkerHandover.WhatLasts | packages/import/native_import.py:331-337 | After an attempt the marker and the hand-over survive every power loss if the attempt fsynced, and otherwise exactly if they did before |
| MarkerDisk.PowerLossSafe | packages/import/native_import.py:331-333 | Losing any suffix of the unsynced directory operations and the bytes of any unsynced file preserves safety |
| MarkerDisk.LastsWhenDurable | packages/import/native_import.py:305-337 | With only temporary names linked, the marker renamed and names unlinked since the last fsync, the marker survives every power loss if and only if its name is durable, and the hand-over if and only if the fence name is durably gone |
| MarkerDisk.SubmitSafe | packages/import/native_import.py:309-337 | A directory operation keeps every crash state good if its own outcome is |
| MarkerDisk.CreateSafe | packages/import/native_import.py:309-318 | Creating a temporary file changes no crash state's fence, marker or domain bytes |
| MarkerDisk.ChangePrivate | packages/import/native_import.py:318-319 | Writing to a file no crash state shows keeps every crash state good |
| MarkerDisk.PublishSafe | packages/import/native_import.py:326-328 | Renaming a whole durable file over the marker keeps every crash state good |
| ImportRunner.Importer.PromoteUntilDone | packages/import/native_import.py:1567-1673 | Any schedule of crashed runs followed by one that is not crashed ends in the very store, versions included, that one uninterrupted import would have left |
| ImportRunner.Importer.Promote | packages/import/native_import.py:1567-1673 | One run crashed after any write: from the state of some prefix of the import it reaches that of a prefix at least as long, and of all of it when not crashed, also when others have written to the journal; over the whole import it changes nothing and completes if and only if the journal shows its completion event and no other |
| ImportRunner.Importer.Open | packages/import/native_import.py:1567-1620 | The opening transaction provisions, resumes, finishes with nothing to do, or refuses, according to what the store shows |
| ImportRunner.Importer.RunPhase | packages/import/native_import.py:1621-1665 | A phase's effect, its manifest entry and for the last one the completion event are committed together or not at all |
| ImportJournal.PromoteAmongWriters | packages/import/native_import.py:1567-1673 | Any interleaving of crashed runs with events and compactions of other writers, and one more run: everything but the journal is what one undisturbed import leaves; the run fails only where that import would, and otherwise completes if and only if the completion event is still kept |
| ImportJournal.PromoteAgain | packages/import/native_import.py:1450-1523 | Over a complete import a further run changes nothing, and completes if and only if the completion event has a number above `compacted_through` and no other retained event passes for one |
| ImportJournal.PromoteAfterCompaction | packages/import/journal.py:147-172 | After a compaction a further run is refused if and only if the compaction retains fewer events than there are from the completion event on |
| ImportJournal.OwnEventIsKept | packages/import/native_import.py:1508-1522 | The check on completion events passes if and only if the import's own is retained and is the only one |
| ImportJournal.TrimmedKept | packages/import/journal.py:153-163 | A compaction keeps an event if and only if it retains at least as many events as there are from it on |
| ImportRunner.FinalStageCompletes | packages/import/native_import.py:1450-1523 | After the last phase: all phases recorded in order, exactly one completion event, and the generation check passes |
| ImportRunner.PhaseRecorded | packages/import/native_import.py:1621-1626 | A phase is recorded exactly when the import has got past it |
| ImportRunner.BesideStep | packages/import/native_import.py:1621-1665 | Beside other traffic in the journal the next transaction goes through exactly when the undisturbed import's does |
| NativeImport.AfterStage | packages/import/native_import.py:1567-1673 | After every prefix of the import the completed phases are that prefix and no completion event exists before the end |
| NativeImport.AdvanceStage | packages/import/native_import.py:1621-1665 | One more phase moves the store from one stage to the next |
| NativeImport.AdvanceBeside | packages/import/native_import.py:1621-1665 | On stores that differ in the journal alone a transaction of the import goes through on both or neither and leaves stores that differ in the journal alone; only the last one touches the journal, and appends to it |
| DocumentStore.TransactionRefinesPlainMap | packages/import/transactional_sqlite.py:30-49 | An outermost transaction publishes all its writes or none, nesting dissolved, on a plain map with change counters |
| DocumentStore.RefinesPlainMap | packages/import/sqlite_store.py:105-143 | A document's version rises by one exactly when a write creates or changes it |
| DocumentStore.NestedJoins | packages/import/transactional_sqlite.py:33-36 | A nested block does what its statements would do in the enclosing one |
| DocumentStore.ExecIsWrites | packages/import/transactional_sqlite.py:63-100 | What a block does is what its writes do, in order, up to the statement that raises |
| DocumentStore.Store.Transaction | packages/import/transactional_sqlite.py:30-49 | Outermost: commit or no change at all; nested: joins and never commits |
| DocumentStore.Store.ReadModifyWrite | packages/import/transactional_sqlite.py:63-100 | Reads its own transaction's writes; the conflict error cannot occur; a raising mutator leaves everything as it was |
| DocumentStore.Store.Load | packages/import/transactional_sqlite.py:51-61 | Inside a transaction a load sees its writes, outside it the committed rows |
| DocumentStore.Store.RunBlock | packages/import/transactional_sqlite.py:30-49 | Running a block statement by statement, nested transactions included, has the effect of the block |
| DocumentStore.Store.Rollback | packages/import/transactional_sqlite.py:41-49 | Rolling back, like a crash, loses the open transaction and nothing else |
| EventJournal.ConsumerSeesSlice | packages/import/journal.py:82-167 | Over any interleaving of appends, compactions and polls the rows are exactly `compacted_through+1 .. next_seq-1`, and a consumer that follows next_cursor has received exactly the history between its start and its cursor, up to resyncs it was told of |
| EventJournal.ReadSlices | packages/import/journal.py:115-145 | A page is the history right after the cursor, cut at the limit; resync_required exactly when an event after the cursor was discarded |
| EventJournal.AppendHolds | packages/import/journal.py:82-102 | Appending extends the history by one event and never finds the document corrupt |
| EventJournal.CompactHolds | packages/import/journal.py:153-167 | Compaction keeps the history and the numbering and retains as many rows as asked for |
| EventJournal.ConsecutiveHolds | packages/import/journal.py:82-167 | Documents numbered without a gap are exactly those some history leaves |
| EventJournal.RowsAfterNumbered | packages/import/journal.py:123-127 | Filtering by sequence number is cutting the history at the cursor |
| EventJournal.PollFollowing | packages/import/journal.py:115-145 | One poll hands a consumer the next events of the history and moves its cursor past exactly those |
| EventJournal.NextFollowing | packages/import/journal.py:82-167 | Nothing other writers and compactions do disturbs what a consumer has received so far |
| EventJournal.Journal.Append | packages/import/journal.py:72-107 | A valid event gets the number after everything ever written; an invalid one changes nothing |
| EventJournal.Journal.CompactBoard | packages/import/journal.py:147-172 | Reports what it removed; history and numbering stay |
| EventJournal.Journal.ReadAfter | packages/import/journal.py:109-145 | Reading changes nothing and returns the slice |
| Scrub.FindViolations | packages/import/scrub.py:123-137 | The accepted spans are ascending and disjoint, each comes from a candidate, and every candidate is accepted or overlaps an accepted one |
| Scrub.GreedyIsSelection | packages/import/scrub.py:129-137 | The same of the reference selection |
| Scrub.GreedyCovers | packages/import/scrub.py:133-136 | Whatever was not taken overlaps something that was |
| Scrub.GreedyDisjoint | packages/import/scrub.py:133-136 | What was taken is ascending, disjoint and within the text |
| Scrub.LastIsEnough | packages/import/scrub.py:133-136 | Testing a candidate against all accepted spans equals testing it against the last one's end |
| Scrub.CandidatesOk | packages/import/scrub.py:123-132 | No two candidates tie on start and priority, so the sort key decides alone |
| Scrub.Splice | packages/import/scrub.py:147-155 | The output is the gaps between the spans with the replacements in between; the gaps are exactly the uncovered characters in order, and the length is that of the text minus the spans plus the replacements |
| Scrub.OutsideStretch | packages/import/scrub.py:148-154 | A covered stretch contributes nothing, an uncovered one is kept whole |
| Scrub.GapThenSpan | packages/import/scrub.py:148-153 | The stretch before a span is kept, the span itself is not |
| Scrub.ScrubText | packages/import/scrub.py:140-155 | Rejects, passes the text unchanged, or redacts, according to mode and findings |
| TicketAudit.Audit.FetchAllTickets | tools/stranded_approvals.py:307-363 | Against a server that may answer anything: a result holds exactly as many tickets as the opening probe counted, each identified and none twice, each in the status it was listed under |
| TicketAudit.Audit.CompleteTicketPages | tools/stranded_approvals.py:144-193 | At most TICKET_MAX_PAGES pages and never a cursor twice; returns if and only if the pages received are a complete traversal, with all their rows, and gives up on pages that rightly continue only at the page limit |
| TicketAudit.Audit.TakePage | tools/stranded_approvals.py:158-192 | A page is taken if and only if it continues or completes the traversal so far |
| TicketAudit.Audit.AddRows | tools/stranded_approvals.py:164-171 | A page's rows are added if and only if none lacks an identifier or repeats one |
| TicketAudit.Audit.CompleteStatusPage | tools/stranded_approvals.py:196-244 | Whether paged or split by assignee, the rows are identified, none twice, reported by the server for that status, and as many as its first answer claims |
| TicketAudit.Audit.RecordStatus | tools/stranded_approvals.py:324-334 | Goes through if and only if every ticket of the page is new and still in that status |
| TicketAudit.Audit.FetchBatch | tools/stranded_approvals.py:342-362 | A batch returns the tickets asked for, no more and no fewer, each checked against its listed status |
| TicketAudit.ChunksFlat | tools/stranded_approvals.py:96-98 | Batching loses and repeats nothing |
| TicketAudit.SortedMerge | tools/stranded_approvals.py:244 | The assignee split's rows, in order of identifier, are the merged ones, each once |
| SafeTree.CopyAndWalk | packages/import/safe_tree.py:131-321 | Copying without a name filter succeeds exactly when a link-rejecting walk does, on names a directory can hold, and walking the copy lists what walking the source lists: paths, kinds, modes, times and payloads |
| SafeTree.Walker.Walk | packages/import/safe_tree.py:147-206 | Succeeds if and only if nothing is refused and both bounds hold over the whole tree; the list is every entry, each before what lies in it |
| SafeTree.Copier.CopyDirectory | packages/import/safe_tree.py:231-309 | Succeeds if and only if there are no links, hard links or special entries and both bounds hold; the copy equals the source and no entry ever exists already |
| SafeTree.ListingDistinct | packages/import/safe_tree.py:147-205 | No path is listed twice |
| SafeTree.ListingLength | packages/import/safe_tree.py:154-155 | The entry bound counts exactly the entries listed |
| SafeTree.InsertAtEnd | packages/import/safe_tree.py:236 | Creating entries in sorted order always extends the directory at its end |
| LockPrinter.RoundTrip | tools/build_home_runtime_wheelhouse.py:311-326 | Parsing a printed lock gives back python version, requirements hash and, in order of tags, every section, with normalized names |
| LockPrinter.PrintParsed | tools/build_home_runtime_wheelhouse.py:215-326 | Printing what was parsed from a printed lock gives back its text if and only if its names are normalized; what is printed then always parses to the same sections |
| LockFile.LockSections | tools/build_home_runtime_wheelhouse.py:215-264 | Accepts exactly schema 2 locks that fall into at least one platform section with distinct tags and well-formed entries, and, where allowed, legacy locks |
| LockFile.ReadSections | tools/build_home_runtime_wheelhouse.py:236-263 | Parsing section by section while reading agrees with cutting the lock at its platform lines first; the empty-tag error cannot occur |
| LockFile.ParseEntries | tools/build_home_runtime_wheelhouse.py:190-212 | Succeeds if and only if there is an entry, every line matches, and normalized names are distinct |
| LockFile.MatchesOnlySpaced | tools/build_home_runtime_wheelhouse.py:27-29 | A line that matches is `name==version`, white space, and a sha256 hash of 64 hex digits |
| LockFile.SpacedMatches | tools/build_home_runtime_wheelhouse.py:27-29 | Every such line matches, as just that entry |
| LockPrinter.EntriesRoundTrip | tools/build_home_runtime_wheelhouse.py:320-325 | Printed entries parse back to themselves with normalized names |
| LockFile.NormalizeIdempotent | tools/build_home_runtime_wheelhouse.py:82-83 | Normalizing a name twice is normalizing it once |
| LockFile.NormalizeChars | tools/build_home_runtime_wheelhouse.py:82-83 | Normalizing keeps a name within the characters an entry may use |
| LockFile.PlatformTagNonEmpty | tools/build_home_runtime_wheelhouse.py:240-250 | A stripped platform line never has an empty tag |
| LockFile.CutGrows | tools/build_home_runtime_wheelhouse.py:239-255 | Reading on never takes back a stray entry or a closed section |
| LockPrinter.AcceptedIsOk | tools/build_home_runtime_wheelhouse.py:215-264 | Every accepted lock holds sections that can be printed and parsed again, legacy tags with trailing white space apart |
| LockPrinter.RenderLock | tools/build_home_runtime_wheelhouse.py:311-326 | The printed text is the head and the sections in order of tags |
| LockPrinter.HeadersKept | tools/build_home_runtime_wheelhouse.py:180-187 | Section lines disturb no header but `platform` |
| LockPrinter.FindSorted | tools/build_home_runtime_wheelhouse.py:319 | Sorting by tag changes no lookup |
| LockPrinter.ValidateLock | tools/build_home_runtime_wheelhouse.py:267-286 | Passes exactly current locks with a section for the platform, and returns that section |
| LockPrinter.RefreshLock | tools/build_home_runtime_wheelhouse.py:612-669 | Refreshing one platform is written exactly for a valid tag over a lock that parses and is for the same python version; it keeps every other section when source requirements match, drops them all when they do not, and the rewritten lock passes validation with the new entries only if these are well formed |
| LockPrinter.RefreshKeeps | tools/build_home_runtime_wheelhouse.py:612-669 | The same for any sections that can be printed |
| LockPrinter.RefreshKeepsOthers | tools/build_home_runtime_wheelhouse.py:612-669 | With unchanged requirements every other section survives if and only if the lock read is not a legacy one whose tag ends in white space |
| LockPrinter.LegacyTagLost | tools/build_home_runtime_wheelhouse.py:223-232 | Every one-package legacy lock whose tag ends in white space is accepted, and refreshing any platform of it loses its section |
| LockPrinter.SmallestLegacyTagLost | tools/build_home_runtime_wheelhouse.py:223-232 | One such lock in full |
| AdmissionQueue.BudgetKept | tools/ci_manifest.py:1146-1189 | Over every interleaving of starts, enqueues, scans, releases, aborts and deaths, each process with its own budget: those inside sit in slots of their own, and for every budget at most that many of those that asked with it or less are inside; with one budget in use, at most that many in all |
| AdmissionQueue.RunKeeps | tools/ci_manifest.py:1065-1189 | Every interleaving keeps the whole invariant: lock, slots, scans, queue, and what scanners have seen |
| AdmissionQueue.NextKeeps | tools/ci_manifest.py:1065-1189 | So does every single step of every process, a failing scan's one after the other included |
| AdmissionQueue.LockKept | tools/ci_manifest.py:1115 | The queue lock is held by the one process that scans |
| AdmissionQueue.SlotsKept | tools/ci_manifest.py:1146-1171 | A slot is locked by exactly the process that runs in it, is trying it, or has failed and not let it go |
| AdmissionQueue.QueueKept | tools/ci_manifest.py:1118-1135 | No scan of another process ever removes a living process's request |
| AdmissionQueue.SightKept | tools/ci_manifest.py:1118-1136 | A scanner has noted every listed request it has come to that is still queued |
| AdmissionQueue.DecideExact | tools/ci_manifest.py:1137-1169 | At any decision of any run: the own position is never missing; admitted if and only if fewer rows read precede the own request than slots are held; those rows include every listed live request ahead, and a held slot lies within the budget and nobody else keeps it |
| AdmissionQueue.PositionCounts | tools/ci_manifest.py:842-850 | A request's position in queue order is the number of requests that precede it |
| AdmissionQueue.QueueOrderIsTotal | tools/ci_manifest.py:842-850 | Queue order is total |
| AdmissionQueue.AdmissionLeavesOthers | tools/ci_manifest.py:1158-1164 | One admission leaves every other admissible request admissible if and only if no live request ahead of the admitted one has the slot taken within its budget and no slot to spare; with one budget in use, if and only if fewer live requests precede the admitted one, at that moment, than slots are open |
| AdmissionQueue.DecideAdmits | tools/ci_manifest.py:1158-1164 | A decision to admit takes one open slot and one request out of the queue and nothing else |
| AdmissionQueue.ListedIsAdmissible | tools/ci_manifest.py:1137-1164 | If every live request ahead was listed by the scan, the admitted request was admissible and, whatever the budgets, the admission disturbs no other admissible request |
| AdmissionQueue.HeadAdmissible | tools/ci_manifest.py:1137-1158 | Whenever a live request waits, the head of the queue is admissible if and only if a slot within its budget is open; with one budget in use, any open slot will do |
| AdmissionQueue.Gate.Scan | tools/ci_manifest.py:1115-1171 | An undisturbed scan admits its process if and only if its request is admissible, removes the requests of dead processes, and otherwise leaves slots and processes as they were |
| AdmissionQueue.LateJoinerOvertaken | tools/ci_manifest.py:1115-1171 | A run with two slots in which a request that joined during another's scan is admissible and stops being so |
| SuiteSelection.SelectAffected | tools/ci_manifest.py:548-605 | A selection is made if and only if the diff output parses, has 1 to 512 changed paths, and every path is valid and already trimmed; its reasons and suites are exactly those the changed paths call for |
| SuiteSelection.SelectSuites | tools/ci_manifest.py:556-605 | The same from parsed records; among valid paths the only failure is the lookup of a path that trimming alters; the branch for an empty selection cannot be reached |
| SuiteSelection.SelectUntrimmed | tools/ci_manifest.py:567-570 | The changed path `a` with a trailing space is valid, and no selection is made for it |
| SuiteSelection.ParseRecords | tools/ci_manifest.py:491-515 | Succeeds exactly on what some list of well-formed change records prints, and returns that list |
| SuiteSelection.FieldsPrefix | tools/ci_manifest.py:501-514 | Change records are determined by their printed fields |
| SuiteSelection.CoveringSuites | tools/ci_manifest.py:430-453 | Maps every trimmed path to the suites covering it, or refuses an invalid path |
| SuiteSelection.PathReasons | tools/ci_manifest.py:567-576 | Collects exactly the per-path reasons, or stops at a path whose trimmed form differs |
| SuiteSelection.AllTrimmed | tools/ci_manifest.py:434-452 | If every changed path is some changed path's trimmed form, all are trimmed |
| SuiteSelection.FailClosed | tools/ci_manifest.py:566-597 | Without escalation every changed path is covered, every suite covering it is selected and no other is; with one, nothing is skipped |
| SuiteSelection.NothingUnmapped | tools/ci_manifest.py:581-588 | Without escalation something is selected |
| SuiteSelection.Monotone | tools/ci_manifest.py:566-597 | Enlarging the changed paths never drops a selected suite or an escalation |
| SuiteSelection.EscalationGrows | tools/ci_manifest.py:567-581 | Every single reason survives, at least as another one |
| IdentityBinding.NoSharedNameIsBound | packages/import/bind_identities.py:166-240 | Over any import, any quarantine and any sequence of binding runs: a ticket that carries an identity for a display name carries that of the one bound record with this name, and the source gave the name to that record alone |
| IdentityReconciled.NoSharedNameIsGranted | packages/import/bind_identities.py:166-240 | Over any interleaving of binding runs with reconciliation's dropping and restoring of agents and tickets: an identity on a ticket is that of a principal some record of its display name was bound to; the source gave the name to one record if it had the name at all, and it had it if nothing was restored under a redacted name |
| IdentityReconciled.BoundUntilTouched | packages/import/reconcile.py:298-312 | A bound record stays bound exactly as long as reconciliation leaves it alone; once dropped or restored it is never bound again |
| IdentityReconciled.NextSound | packages/import/reconcile.py:298-327 | Every binding run and every reconciled agent or ticket keeps each bound record and each ticket identity tied to a decision on file |
| IdentityReconciled.StepsNames | packages/import/reconcile.py:298-312 | Unless something is restored under a redacted name, all names on the board and on file are source names |
| IdentityReconciled.GainsExact | packages/import/bind_identities.py:166-240 | Some decisions file makes a run give a ticket without an identity one under its display name, source name or not, if and only if a record of this name is on the board that is bound or undecided, and nobody shares the name or did in the source |
| IdentityReconciled.ReachedGains | packages/import/bind_identities.py:134-278 | So it is on every board reached from an import by runs of either kind |
| IdentityReconciled.SharedStays | packages/import/bind_identities.py:234-240 | Once a name is shared no run changes what tickets carry for it |
| IdentityReconciled.SharedRedaction | packages/import/reconcile.py:298-312 | Two records whose different names redact to one text: the first is restored and bound before the second is restored, and a ticket with that display keeps the first one's identity through any later binding run |
| IdentityBinding.SlotExact | packages/import/bind_identities.py:117-131 | A run gives a ticket's role an identity if and only if its display name is that of a bound record and of no other |
| IdentityBinding.UniqueExact | packages/import/bind_identities.py:228-238 | The names tickets are resolved by are exactly those of a bound record whose name nobody shares or shared |
| IdentityBinding.IdentityStays | packages/import/bind_identities.py:239-240 | An identity once given is never replaced or withdrawn |
| IdentityBinding.DecisionsStay | packages/import/bind_identities.py:182-187 | Decisions on file never change, over any number of runs |
| IdentityBinding.RepeatIsNoop | packages/import/bind_identities.py:162-164 | A decisions file that went through changes nothing when it comes again |
| IdentityBinding.RunsKeep | packages/import/bind_identities.py:134-278 | Over any runs every record is settled exactly as the decision on file says, tickets carry owned identities only, and there is one event for every decision |
| IdentityBinding.RunKeeps | packages/import/bind_identities.py:134-278 | So does a single run |
| IdentityBinding.ImportedIsValid | packages/import/native_import.py:1269-1329 | An imported board starts out that way |
| IdentityBinding.Board.BindIdentities | packages/import/bind_identities.py:134-278 | A run fails if and only if the decisions are malformed, the import is not complete, or a decision on file would change, and then changes nothing; otherwise the new state is that of the specification |
| IdentityBinding.SettleRecords | packages/import/bind_identities.py:179-226 | Records are settled in order; it stops exactly when some decision on file would change |
| IdentityBinding.TicketIdentityFields | packages/import/bind_identities.py:117-131 | All six roles are resolved and nothing else of the ticket changes |
| IdentityBinding.DecisionNonEmpty | packages/import/bind_identities.py:189-190 | The empty-binding error cannot occur |
| Reconciliation.RunApplies | packages/import/reconcile.py:388-470 | After a completed run every key of the worksheet is on file with the action decided for it, under exactly one audit row |
| Reconciliation.RunCovers | packages/import/reconcile.py:409-458 | A completed run has exactly one audit row and one journal event for each top-level record, in order, with all of the record's keys |
| Reconciliation.ActionsStay | packages/import/reconcile.py:418-421 | Over any runs the map of applied keys only grows and no key changes its action |
| Reconciliation.RepeatIsNoop | packages/import/reconcile.py:392-397 | A decisions file that went through changes nothing when it comes again |
| Reconciliation.CoversExactlyOnce | packages/import/reconcile.py:146-178 | An accepted decisions file has exactly one row for every worksheet row and no other |
| Reconciliation.DecisionMap | packages/import/reconcile.py:96-178 | Accepts exactly the files that match the worksheet, carry a valid header, and decide every key once with a known action |
| Reconciliation.ReadRows | packages/import/reconcile.py:146-173 | Stops exactly at a malformed, repeated or, in a signed file, misquoted row |
| Reconciliation.KeyHasOneRecord | packages/import/reconcile.py:398-417 | Every worksheet key belongs to exactly one record |
| Reconciliation.StepsApply | packages/import/reconcile.py:409-451 | No step changes a decision on file, and all keys of a record end up with its one action |
| Reconciliation.LastDecisionWins | packages/import/reconcile.py:263-365 | Deciding a record again leaves nothing of the earlier decision, and touches nothing but the record, if and only if the earlier one dropped it or did not put an archive row back under another identifier |
| Reconciliation.RedactedArchiveTwice | packages/import/reconcile.py:284-297 | Redacting an archive row whose identifier redaction changes, and deciding it so again, leaves its memory on the board twice |
| Reconciliation.Board.ApplyDecisions | packages/import/reconcile.py:368-479 | A run that fails changes nothing, and fails exactly when the file is unacceptable, the board is missing, one record is decided two ways, or a record cannot be decided; otherwise the new state is that of the specification |
| Reconciliation.DecideRecords | packages/import/reconcile.py:409-458 | Records are decided in order, and it fails exactly when one of them cannot be |

## Left out

- RunActivate: of the gates only backup integrity and currency are modelled; the confirmation, evidence and remaining gates (tools/o1_cutover.py:2752-2760) enter as booleans.
- RunRollback: the credential coherence checks (tools/o1_cutover.py:2820-2856) enter as booleans.
- FetchAllTickets: says what a returned result guarantees; which answers make the whole audit return is stated per traversal in CompleteTicketPages and RecordStatus, not end to end, because hydration answers may differ from call to call.
- CompleteStatusPage: for servers without cursors the rows merged over the assignees are tied to what the server reported, not to the order in which assignees were asked.
- CopyAndWalk: paths are lists of components; a name that is empty, `.`, `..` or holds a slash is refused by the walk alone, and no directory has one. The name filter and the mode and times of the root itself are not modelled, nor the limits on recursion depth and open descriptors: the walk holds one descriptor a level and the copy two, so on very deep trees the copy fails first.
- Scan: the scan with nothing else happening; what interleaved steps do to a decision is stated in DecideExact and AdmissionLeavesOthers. The slots of a failed scan are let go together, and before its process asks again.
- RefreshLock: the resolved entries are an input; the clauses about the rewritten lock say for which of them it is valid, and that wheel metadata gives such entries is not checked by the code either.
- NoSharedNameIsBound: over binding runs alone; what survives when reconciliation runs in between is stated in NoSharedNameIsGranted and BoundUntilTouched.
- Symbolic links, canonicalization, ownership and open-by-descriptor checks: paths are canonical, a path is a regular file exactly when the file map has it, and the file system has no other writer.
- Timestamps, process umask and file creation times: constants of a run or left out of journal entries.
- Regular-expression matching of scrub rules and of path-sensitivity rules: each rule is a function giving disjoint non-empty spans, or the reasons for one path. The lock file's entry pattern is modelled character by character.
- Upper-case letters outside ASCII in `str.lower`: package names in a lock are ASCII.
- What an import phase maps a record to: an abstract function of the phase and the quarantine so far, which may raise.
- SQLite locking: one connection holds the write lock while its transaction is open; waiting for it is not modelled.
- Central URL, token, seat, host and launchd gates, Git, pip and network access, code signing, command lines, printing: results are inputs or absent.
- Lease checks around full-gate admission (tools/ci_manifest.py:1023-1061): they decide whether a process asks at all or leaves early, not who is admitted.
- Half-written request files: a request file is either complete or absent.
- PromoteAmongWriters: other writers change the journal between two runs, not between two transactions of one; a run stopped after any transaction and started again covers the same states. What a running central changes on the board itself after an import is not modelled.
- PromoteUntilDone: `promote` arms the marker after its last transaction; that is modelled apart, in ArmPromotedMarker.
- CopyRollbackUnit: empty directories, the manifest written beside the members and temporary names are not part of the backup tree; what an unfinished copy leaves is not stated.
