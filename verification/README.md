# Appellate workbench: a verified model of its protocols

The appellate workbench is a desktop simulation of appellate practice. This project models the parts of it where a mistake would be hard to see and expensive: the transaction that replaces two authored files together, the event-sourced filing, workflow and oral-argument sessions, the disclosure rules of a record and what a session may see of it, the scanner that guards profile imports, and the byte framing behind session identities. Each model keeps the branches, the order of checks and the constants of the C++ code. What the code promises is stated as contracts and lemmas and proved for all inputs, all runs and all fault patterns.

Run `dafny verify dfyconfig.toml` in this directory.

## How the models are built

**Authoring transaction** (`AuthoringDisk`, `RealismTransaction`, `AuthoringCommand`, `AuthoringRuns`). `Disk` is a class whose primitive steps either work, fail without effect, or never happen because the process was killed; a list of fates decides step by step, and the theorems hold for every list. Each location keeps the value a process reads and the set of values a crash may leave; synchronising settles that set. `Guarded` is the invariant of every disk state, in two views: what processes read, whatever steps fail, and what a crash may leave. The methods of the command keep `Safe`, which says that the invariant holds now and held after every step recorded in the trace.

**Filing session** (`BusinessCalendar`, `ProcedureModel`, `ProcedureEngine`, `ProcedureDecision`, `ProcedureHistory`, `SessionStorage`, `SessionControl`). The kernel's decide, apply and replay are functions; the deadline calculator, the report of missing fields and replay are loops proved equal to specifications. `CalledFor` says what a session and a filing call for, and `LogLegal` which logs are accepted, without running decide or the reducer. The controller is a class over a database object and an asset store object.

**Records** (`Utf16Text`, `ParentGraph`, `RecordModel`, `RecordRules`, `RecordValidation`, `RecordExample`, `RecordProjection`, `InstalledRecord`, `RecordWorkspaces`). `RecordRules` states what an acceptable record is; `RecordValidation` checks it with the hash sets and loops of the source. The workspace is a class with the record it holds, the granted documents, the visible rows and look-up tables, and the open document. What the PDF engine and the asset resolver answer is a parameter of each call.

**Profile import** (`JsonGrammar`, `JsonScanner`, `JsonTheorems`, `BenchProfiles`). The scanner is a class that advances a position; its methods are proved equal to functions on positions, and those are proved sound and complete for a grammar of concrete syntax trees. The profile codec works on JSON trees.

**Framing** (`Framing`, `SessionIdentity`). Both 64-bit encoders, frames and counted lists, appended in place to a byte array; unique decodability of everything that is hashed.

**Workflow and oral sessions** (`WorkflowReplay`, `WorkflowRestore`, `WorkflowSessions`, `OralEngine`, `OralDecision`, `OralSessions`). What a workflow operation does to a matter is a parameter; the envelope of commands and events, the layout of the log, its regrouping and its replay are the code's. The oral-argument engine decides from the answers which seat speaks, which act follows and which authored question it asks, runs two clocks, and decides every event of a transcript again; `OralDecision` says what each event must be from the events before it and its own answer. Only the wording of an utterance and the number a style contributes to the choice of a question are parameters.

## What the proofs found

- **A target that was moved but not synchronised can break the pair of files.** Recovery goes by what it reads in the targets and never synchronises them first, and it does so in three places. It moves the manifest forward beside a review that may still fall back to its old bytes; it takes a new pair for final, and the command then throws the journal away, although the manifest may still fall back; and it throws the journal of an old pair away, although the review may still become new, after which the next transaction starts from bytes that are not settled. `AuthoringCommand.MayStart` is the exact condition on the disk at the start of a command. From every start that meets it a command keeps the invariant, whatever fails (`AuthoringCommand.AuthorEvidence`), and so does every run all of whose commands start so, in particular every run in which no step fails or every command is followed by a machine stop (`AuthoringRuns.AnyRunWithCrashes`). From every safe disk that does not meet it, a command none of whose steps fails breaks the invariant for some answers of the catalog and of authoring, as long as the transaction directory holds nothing foreign (`AuthoringRuns.StartingElsewhereSpoils`). All three are reached from untouched files by a process that is killed between moving a target and synchronising its directory: while committing the review, while committing the manifest, and while restoring the review (`AuthoringRuns.KilledProcessesSpoil`). What processes read is not affected (`AuthoringRuns.AnyRunAsRead`).
- **Validation alone does not make decide and apply agree.** The session validator accepts a deficiency phase without a deficiency, and there a decided event is refused. `ProcedureHistory.ValidationAloneIsNotEnough` gives an instance, `ProcedureHistory.DecidedEventAppliesExactlyWhen` the exact condition on session and filing: the event is refused exactly when, in such a session, an authorized actor files a notice of the right type that leaves a required field out. No session replayed from a pristine one is like that.
- **A stable twin identifier may repeat the identifier of its own or of an earlier disclosure**, but not of a later one: the mapping loop does not look at disclosure identifiers (`RecordProjection.StableIdRepeatsNoLaterDisclosure`). `RecordExample.ExampleIsAcceptable` gives an accepted record with both repetitions. A stable identifier is shared with nothing else.
- **The scanner's digits are wider than JSON's.** A number may contain any character of the digit class after its first digit. `JsonTheorems.WiderDigitsPass` gives an instance and `JsonTheorems.AsciiScanAcceptsExactlyTheJson` the exact condition: an accepted text is JSON by RFC 8259 exactly when the scanner accepts it with the ASCII digits alone. The document parser that runs after the scanner is not part of this model.
- **A visible docket can lose a parent when grants are partial**: exactly when a granted document's entry hangs below an entry whose sealed document is not granted (`RecordProjection.DocketClosedExactlyWhen`). `RecordExample.GrantTheComponent` brings a workspace into such a state with an accepted record and an applied access projection. The public docket never does.

## Model

| member | source | states |
|---|---|---|
| BusinessCalendar.CalculateDeadline | src/engine/src/business_calendar.cpp:30-50 | The counting loop and the rolling loop terminate for every finite holiday list and yield the specified deadline. |
| BusinessCalendar.CountedDayExactly | src/engine/src/business_calendar.cpp:30-42 | The counted day is the one day up to which exactly the requested number of counting days lie after the start, and it counts itself. |
| BusinessCalendar.CountedDayAtMost | src/engine/src/business_calendar.cpp:30-42 | The counted day is no later than any day up to which enough days count. |
| BusinessCalendar.DeadlineExactly | src/engine/src/business_calendar.cpp:43-49 | With rolling, the deadline is the first business day at or after the counted day; without, the counted day. |
| BusinessCalendar.DeadlineBound | src/engine/src/business_calendar.cpp:30-42 | Before rolling a deadline is at most start + 7 * ceil((days + holidays) / 5). |
| BusinessCalendar.DeadlineIsMonotone | src/engine/src/business_calendar.cpp:19-50 | A later start, more days or more holidays never bring a deadline forward, rolled or not, in both counting modes. |
| BusinessCalendar.DeadlinesCompose | src/engine/src/business_calendar.cpp:30-42 | Counting a + b days is counting b days from the end of a days. |
| BusinessCalendar.WeekdaysByDivision | src/engine/src/business_calendar.cpp:19-28 | The number of weekdays in an interval, by floor division. |
| ProcedureEngine.MissingFieldsExactly | src/engine/src/procedure_engine.cpp:229-242 | The report names exactly the required fields the filing leaves out or leaves empty, sorted, each once. |
| ProcedureEngine.CollectMissingFields | src/engine/src/procedure_engine.cpp:229-242 | The loop and the sort yield that report. |
| ProcedureEngine.Replay | src/engine/src/procedure_engine.cpp:464-476 | Applies every event in order and stops at the first that is refused. |
| ProcedureEngine.FailureIsFinal | src/engine/src/procedure_engine.cpp:464-476 | A log with a refused prefix is refused. |
| ProcedureDecision.ConsistentExactlyWhen | src/engine/src/procedure_engine.cpp:153-193 | Validation accepts exactly a complete definition, with authorities cited once and all of one generation, and a case and a session that belong to it. |
| ProcedureDecision.DecidedExactlyWhen | src/engine/src/procedure_engine.cpp:264-285 | A filing is decided exactly when definition, case and session are consistent, the filing is proper, its submission is new and its actor acts in the case; otherwise the first of these that fails is the error. |
| ProcedureDecision.DecisionIsCalledFor | src/engine/src/procedure_engine.cpp:287-348 | A filing is accepted exactly when the actor is authorized, the type is right, nothing is docketed, the day is at most that of a pending deadline and every required field is filled; a deficiency is issued exactly when only a field is missing and none is pending, and it names the unfilled fields and the counted deadline; anything else is rejected for the first condition that fails. |
| ProcedureDecision.OneEventIsCalledFor | src/engine/src/procedure_engine.cpp:287-348 | Session and filing call for one event only. |
| ProcedureHistory.ReplayAcceptsExactlyLegalLogs | src/engine/src/procedure_engine.cpp:350-476 | From a pristine session, replay accepts a log exactly when every entry is legal after the entries before it, and the session is the summary of the log. |
| ProcedureHistory.AcceptedLogShape | src/engine/src/procedure_engine.cpp:350-476 | In every accepted log: no submission twice, at most one deficiency and one acceptance, nothing but rejections after the acceptance, docket numbers 1, 2 in order with the next at most 3, and an acceptance after a deficiency dated by the deadline recomputed from the deficiency's date. In its session the phase agrees with the pending deficiency and the accepted filing, and the decided submissions are those of the events. |
| ProcedureHistory.DecidedEventAppliesExactlyWhen | src/engine/src/procedure_engine.cpp:264-462 | In any session, a decided event is refused exactly when the session is in the deficiency phase without a deficiency and an authorized actor files a notice of the right type that leaves a required field out. |
| ProcedureHistory.ValidationAloneIsNotEnough | src/engine/src/procedure_engine.cpp:153-193 | A session that validation accepts and in which the decided event is refused. |
| ProcedureHistory.DecidedEventExtendsLog | src/engine/src/procedure_engine.cpp:264-476 | In every session replayed from a pristine one, the decided event applies and the longer log replays to the result. |
| SessionControl.CommittedDocket | src/app/session_controller.cpp:106-130 | The docket rows after a commit are those derived from the longer log. |
| SessionControl.DerivedDocketExactly | src/app/session_controller.cpp:106-130 | The docket of a log has one row for every acceptance and deficiency, in order, under the submission's entry, with the number of its event, its title and its status. |
| SessionControl.DecodeRows | src/app/session_controller.cpp:132-190 | Decodes every stored event, checks its row, and derives the docket; fails exactly at an unreadable row. |
| SessionControl.ReplaySnapshot | src/app/session_controller.cpp:132-203 | Succeeds exactly on a snapshot that holds a replayable log, and yields that log's session; reports an engine failure exactly on a held log that does not replay, and an asset failure exactly for a missing document. |
| SessionControl.HeldLogIsUnique | src/app/session_controller.cpp:132-203 | A snapshot holds at most one log. |
| SessionControl.CommitOfDecision | src/app/session_controller.cpp:449-544 | Committing a decided event turns a held log into the longer held log, whose replay is the applied session. |
| SessionControl.SessionController.Submit | src/app/session_controller.cpp:449-544 | Exactly when a submission goes through, what then changes in memory and database, that the event committed is the one session and filing call for, and that the check before the commit and the corruption check never fire. |
| SessionControl.SessionController.SubmittableIsNew | src/app/session_controller.cpp:449-544 | A submission the engine decides is never one the database already holds, so the database's check for repeated commands never refuses it. |
| SessionControl.SessionController.Commit | src/app/session_controller.cpp:508-544 | The database transaction and the reload after it. |
| SessionControl.Reopen | src/app/session_controller.cpp:393-432 | Succeeds exactly when the stored revision and contract are the expected ones, the stored pins are the expected ones in the order of their packs, and the database holds a replayable log with readable documents; any other stored identity is a corrupt session. |
| SessionControl.PinnedExactlyWhen | src/app/session_controller.cpp:407-420 | With one pin for each pack, the stored identity matches exactly when the revision is the expected one, the contract is the legacy one, and the stored pins are the expected ones, as many of each, ordered by pack. |
| SessionControl.ConfiguredExactlyWhen | src/app/session_controller.cpp:398-404 | A configuration is accepted exactly when it has a revision and pins, nothing it cites comes from a catalog, and the initial session is pristine. |
| SessionControl.ResumeAfterRun | src/app/session_controller.cpp:339-544 | After any run of submissions and store faults, reopening rebuilds exactly the log the database took, and the state in memory unless a reload had failed. |
| SessionControl.ResumeAfterRuns | src/app/session_controller.cpp:339-544 | Runs and reopenings in turn: every reopening succeeds, goes on with the same log, and keeps each stored command the submission its event answers. |
| SessionStorage.PinOrderIsIrrelevant | src/app/session_controller.cpp:410-420 | The order in which the expected pins of different packs are given makes no difference to reopening. |
| SessionStorage.UpsertOfLaterEntry | src/storage/src/sqlite_session_store.cpp:2142-2220 | A docket row for a later event goes last. |
| SessionStorage.AppendingKeepsHistory | src/storage/src/sqlite_session_store.cpp:2554-2577 | A committed batch keeps every earlier event, command and reference, continues the numbering of the events without a gap, stores no command identifier twice, and adds docket rows only for its own events. |
| SessionStorage.AppendInTurn | src/storage/src/sqlite_session_store.cpp:2554-2577 | Over any sequence of attempts and faults, the same; of all attempts with one command identifier at most one commits. |
| AuthoringDisk.Disk.Crash | src/cli/pack_cli.cpp:1085-1119 | A machine stop settles every unsynchronised step one way or the other, and nothing else. |
| RealismTransaction.TransactionState | src/cli/pack_cli.cpp:770-813 | Reads both targets and says which of the old and new bytes each has. |
| RealismTransaction.CleanUp | src/cli/pack_cli.cpp:1048-1083 | Removes the members in any order and then the directory, refuses unexpected members, keeps the invariant where the pair is uniform, and breaks it where a crash could leave another. |
| RealismTransaction.ReplaceTarget | src/cli/pack_cli.cpp:1085-1119 | Writes a copy beside the target, moves it over in one step and synchronises; between the two the old bytes may still come back; the other target is not touched. |
| RealismTransaction.Load | src/cli/pack_cli.cpp:1201-1252 | Yields a journal only with all four staged files under its digests. |
| RealismTransaction.Prepare | src/cli/pack_cli.cpp:1332-1387 | Stages the four files and then the journal, all synchronised before success. |
| RealismTransaction.ReplacingKeepsGuard | src/cli/pack_cli.cpp:1085-1119 | Moving bytes over one target keeps the invariant if they are allowed beside all the other target may be. |
| RealismTransaction.StopKeepsGuard | src/cli/pack_cli.cpp:1254-1330 | What a machine stop leaves satisfies the invariant again. |
| AuthoringCommand.Apply | src/cli/pack_cli.cpp:1389-1422 | Replaces the review, then the manifest; success leaves both new; targets that are not the old pair are not written; over the old pair it succeeds whenever no step fails. |
| AuthoringCommand.RollBack | src/cli/pack_cli.cpp:1424-1454 | Restores the manifest, then the review; true means both old and the directory gone; targets with undeclared bytes are not written; from every pair an apply passes through it succeeds whenever no step fails and nothing foreign is in the directory. |
| AuthoringCommand.Recover | src/cli/pack_cli.cpp:1254-1330 | A recovery that returns a transaction leaves both targets new; one that returns nothing leaves the targets as they were, both old or both new, without a directory, as read and after any crash; the only write is the journalled new manifest over the journalled old one beside the journalled new review. |
| AuthoringCommand.Resume | src/cli/pack_cli.cpp:1283-1330 | The same for a loaded journal, that a conflict from a half-done pair needs a failing step or an unreadable catalog, and how it ends for each pair when nothing is in its way. |
| AuthoringCommand.MoveForward | src/cli/pack_cli.cpp:1306-1330 | Replaces the manifest of a half-done pair; safe when the review is settled, and unsafe, if nothing fails, when its old bytes may still come back. |
| AuthoringCommand.HalfDonePairHasItsJournal | src/cli/pack_cli.cpp:1254-1330 | A pair that is neither old nor new always has its complete journal, as processes read it and after any crash, and then no further crash can take the journal away. |
| AuthoringCommand.LoadedIsBegun | src/cli/pack_cli.cpp:1201-1252 | The journal that recovery finds is that of the transaction last begun. |
| AuthoringCommand.Transact | src/cli/pack_cli.cpp:1661-1682 | Prepares, applies and on failure rolls back; succeeds whenever nothing is in its way. |
| AuthoringCommand.Conclude | src/cli/pack_cli.cpp:1685-1718 | Verifies, rolls back on a mismatch, and cleans up only over the final pair. |
| AuthoringCommand.GoOn | src/cli/pack_cli.cpp:1597-1658 | Continues a recovered transaction only if authoring asks for exactly its final bytes. |
| AuthoringCommand.BeginAnew | src/cli/pack_cli.cpp:1611-1682 | Begins a transaction only over the source bytes that authoring read. |
| AuthoringCommand.AuthorEvidence | src/cli/pack_cli.cpp:1456-1740 | Success means both files are as authored and the directory is gone; targets with bytes that the journal does not declare, or, without a directory, that authoring did not read, are never written; when no step fails and nothing foreign is there, the report and both files are those that the files read, the journal, the catalog and the two authorings determine; from every start that meets the condition every path keeps the invariant, and from every other some answers break it. |
| AuthoringCommand.SettledMayStart | src/cli/pack_cli.cpp:1254-1330 | With both targets settled any command may start. |
| AuthoringRuns.RollingForwardIsSafeExactlyWhenReviewIsDurable | src/cli/pack_cli.cpp:1302-1320 | Moving the manifest forward is crash-safe exactly when the old review can no longer come back. |
| AuthoringRuns.StartingElsewhereSpoils | src/cli/pack_cli.cpp:1254-1740 | From every safe disk that does not meet the start condition, a command none of whose steps fails leaves an unguarded state at some step, for the answers given. |
| AuthoringRuns.KilledCommittingTheReview | src/cli/pack_cli.cpp:1109-1116 | Killed after the review was moved and before it was synchronised, a transaction leaves a half-done pair on which no command may start. |
| AuthoringRuns.KilledCommittingTheManifest | src/cli/pack_cli.cpp:1109-1116 | Killed after the manifest was moved, it leaves a pair that is taken for final and on which no command may start. |
| AuthoringRuns.KilledRestoringTheReview | src/cli/pack_cli.cpp:1109-1116 | Killed after the review was moved back, it leaves a pair that is taken for old and on which no command may start. |
| AuthoringRuns.KilledProcessesSpoil | src/cli/pack_cli.cpp:1254-1740 | Each of the three, followed by one command that does not fail, breaks the invariant from untouched files. |
| AuthoringRuns.AnyRunAsRead | src/cli/pack_cli.cpp:1254-1740 | Over any run of commands with any failing steps and killed processes, every pair a process reads is old/old, new review with old manifest and the complete journal beside it, or new/new. |
| AuthoringRuns.AnyRunWithCrashes | src/cli/pack_cli.cpp:1254-1740 | Over any run with failing steps, killed processes and machine stops, all of whose commands start where they may, every pair a crash may leave is one of those three, and a half-done one has a journal no crash can take; so it is when no step fails, or when a stop follows every command. |
| AuthoringRuns.AnyRunFromUntouchedFiles | src/cli/pack_cli.cpp:1254-1740 | The same from two files that no transaction has touched. |
| Utf16Text.UnicodeScalarCount | src/app/record_workspace.cpp:55-74 | The loop over code units counts the scalar values, or reports an unpaired surrogate. |
| Utf16Text.CountsTheEncodedScalars | src/app/record_workspace.cpp:55-74 | The count is the length of the one scalar sequence the text encodes; without one there is no count. |
| Utf16Text.DecodeInvertsEncode | src/app/record_workspace.cpp:55-74 | Every scalar sequence is read back from its UTF-16 form. |
| Utf16Text.IsBoundedText | src/app/record_workspace.cpp:76-80 | A text is bounded exactly when it encodes scalars, at most so many, none of them null. |
| ParentGraph.FindCycle | src/app/record_workspace.cpp:555-568 | The memoised walk reports a cycle if and only if the links have one, and follows at most one link per linked entry over the whole scan. |
| ParentGraph.WalkChain | src/app/installed_record_controller.cpp:511-523 | One chain, followed until it meets a resolved entry, a root or itself. |
| ParentGraph.RootedIsOffCycles | src/app/record_workspace.cpp:555-568 | A chain that ends never comes back to its start. |
| ParentGraph.AcyclicExactlyWhenRooted | src/app/record_workspace.cpp:555-568 | Finitely many links have no cycle exactly when every chain ends. |
| ParentGraph.ChainStaysInDocket | src/app/record_workspace.cpp:532-554 | A chain of links within dockets never leaves its docket. |
| RecordProjection.EveryChainEndsInItsDocket | src/app/record_workspace.cpp:532-568 | In every accepted record the chain of parents from every entry stays in the entry's docket and ends there, at an entry without a parent. |
| RecordValidation.Validate | src/app/record_workspace.cpp:447-754 | Accepts a record exactly when it is acceptable; otherwise the first rule that fails, in the order of the checks, decides the error. |
| RecordValidation.CheckDocuments | src/app/record_workspace.cpp:470-491 | Documents: identifiers unique, texts bounded, public assets present. |
| RecordValidation.CheckDocket | src/app/record_workspace.cpp:493-527 | Entries: bounded, unique, their dockets and documents resolved. |
| RecordValidation.CheckParentLinks | src/app/record_workspace.cpp:528-554 | Parent links: declared with a relationship, in one docket, never from public to sealed under a policy. |
| RecordValidation.CheckAnchors | src/app/record_workspace.cpp:577-598 | Anchors: unique identifiers and labels, resolved documents, pages within the declared count. |
| RecordValidation.CheckDisclosures | src/app/record_workspace.cpp:629-746 | Disclosures: the loop over rules and twin mappings accepts exactly the good ones. |
| RecordValidation.CheckRule | src/app/record_workspace.cpp:638-717 | One disclosure apart from its anchors: identity, requirements, public documents, one-to-one counterpart in the same docket, distinct supports. |
| RecordValidation.CheckMappings | src/app/record_workspace.cpp:718-745 | The twin mappings of one disclosure. |
| RecordProjection.StableIdIsUnique | src/app/record_workspace.cpp:718-745 | A stable identifier names one twin and nothing authored. |
| RecordProjection.StableIdRepeatsNoLaterDisclosure | src/app/record_workspace.cpp:638-658 | What the order of the identifier checks does and does not exclude. |
| RecordExample.ExampleIsAcceptable | src/app/record_workspace.cpp:718-745 | A record with a policy, two sealed documents and two twins that is accepted, with one stable identifier that repeats an earlier disclosure's and one that repeats its own. |
| RecordExample.DocketLosesAParent | src/app/record_workspace.cpp:547-552 | In that record, granting the component but not the entry it belongs to leaves an entry without its parent in the visible docket. |
| RecordExample.GrantTheComponent | src/app/record_workspace.cpp:756-832 | A workspace accepts the record, applies that access and shows the entry without its parent. |
| RecordProjection.StableCopyExists | src/app/record_workspace.cpp:860-878 | In every access state each twin has its stable copy, on the sealed page exactly when that document is granted. |
| RecordProjection.VisibleAnchorIdsAreUnique | src/app/record_workspace.cpp:834-880 | Two visible anchors with one identifier are one anchor. |
| RecordProjection.LabelNamesOnePage | src/app/record_workspace.cpp:577-596 | Visible anchors with one label are one page of one document, although a physical anchor and its stable copy share the label. |
| RecordProjection.DocketClosedExactlyWhen | src/app/record_workspace.cpp:547-552 | The visible docket contains every parent exactly when no granted entry hangs below an ungranted sealed one. |
| InstalledRecord.PublicDefinition | src/app/installed_record_controller.cpp:749-781 | For every accepted record the public record has the documents, entries and anchors, in order, that the workspace shows without grants, and is closed under parents. |
| InstalledRecord.PublicMeansNotSealed | src/app/installed_record_controller.cpp:754-769 | Erasing what is sealed and keeping what is visible without grants is the same. |
| RecordWorkspaces.RecordWorkspace.SetRecord | src/app/record_workspace.cpp:756-772 | Holds a record exactly when it is acceptable; then nothing is granted and nothing is open; otherwise nothing changes. |
| RecordWorkspaces.RecordWorkspace.ApplyAccess | src/app/record_workspace.cpp:781-834 | Applies nothing that is not proper for the record and its policy; of proper projections one of another session or with a smaller number is refused, one with the same number is applied exactly if it is the same, and one with a larger number is applied; then its grants are shown, and a document open under a grant that is gone is closed. |
| RecordWorkspaces.RecordWorkspace.Rebuild | src/app/record_workspace.cpp:834-896 | The visible rows and tables are those of the current grants. |
| RecordWorkspaces.RecordWorkspace.OpenDocument | src/app/record_workspace.cpp:962-1029 | The outcome of every check in order, and which document is open afterwards. |
| RecordWorkspaces.RecordWorkspace.OpenDocketEntry | src/app/record_workspace.cpp:907-921 | Opens the document of a visible entry; the branch for a missing document is never taken. |
| RecordWorkspaces.RecordWorkspace.NavigateToAnchor | src/app/record_workspace.cpp:938-950 | Opens the page of a visible anchor; the branch for a missing document is never taken. |
| RecordWorkspaces.RecordWorkspace.NavigateToCitation | src/app/record_workspace.cpp:952-960 | Whatever order the index was built in, a label leads to the page of the authored anchor that carries it. |
| RecordWorkspaces.IndexCitations | src/app/record_workspace.cpp:887-892 | Any order of the hash yields some visible anchor for every label. |
| RecordWorkspaces.RecordWorkspace.StableTwinResolves | src/app/record_workspace.cpp:860-895 | In every reachable state a stable identifier resolves to the sealed page if granted and to the public page if not. |
| RecordWorkspaces.RecordWorkspace.OnlyVisibleDocumentsAreReached | src/app/record_workspace.cpp:834-896 | Every visible row, anchor and citation leads to a visible document. |
| RecordWorkspaces.OrderlyStep | src/app/record_workspace.cpp:795-800 | A history of one session, with numbers that never go back and equal projections for equal numbers, stays so when a projection that follows is appended. |
| RecordWorkspaces.AppliesExactlyWhen | src/app/record_workspace.cpp:783-816 | What is applied is a projection proper for the record and its policy that is the first, or repeats the one before, or has a larger number in the same session. |
| RecordWorkspaces.AnyRun | src/app/record_workspace.cpp:756-1029 | Over every script of commands: the open document is public or granted, the rows are those of the current grants, every grant is a declared sealed document, and the applied projections are of one session, their numbers never go back, and equal numbers mean equal projections. |
| JsonScanner.RawJsonScanner.Scan | src/app/bench_profile_codec.cpp:50-61 | The scanner as a whole is its specification on positions. |
| JsonScanner.RawJsonScanner.ParseString | src/app/bench_profile_codec.cpp:107-169 | Strings with all escapes, and the text they decode to. |
| JsonScanner.RawJsonScanner.ParseHexDigits | src/app/bench_profile_codec.cpp:149-161 | The four digits of a Unicode escape as one code unit. |
| JsonScanner.RawJsonScanner.ParseObject | src/app/bench_profile_codec.cpp:171-207 | Objects, with the set of keys met so far. |
| JsonScanner.RawJsonScanner.ParseArray | src/app/bench_profile_codec.cpp:209-230 | Arrays. |
| JsonScanner.RawJsonScanner.ParseNumber | src/app/bench_profile_codec.cpp:232-272 | Numbers: sign, whole part, fraction, exponent. |
| JsonScanner.RawJsonScanner.ParseValue | src/app/bench_profile_codec.cpp:274-311 | The dispatch on the first character, and the depth limit. |
| JsonTheorems.AcceptsExactly | src/app/bench_profile_codec.cpp:46-316 | The scanner accepts a text exactly when it is JSON by the grammar of sections 2 to 7 of RFC 8259 with the code's digits, nested at most 32 deep, with no key repeated in an object after decoding. |
| JsonTheorems.TextComplete | src/app/bench_profile_codec.cpp:46-316 | A JSON text that is not too deep is accepted, or answered with the duplicate-key error exactly when an object repeats a key. |
| JsonTheorems.AcceptedByAnyReading | src/app/bench_profile_codec.cpp:46-316 | However a text is read by the grammar, it is accepted exactly when that reading is at most 32 deep and repeats no key. |
| JsonTheorems.TextSound | src/app/bench_profile_codec.cpp:46-316 | From an accepted text its syntax tree can be read. |
| JsonTheorems.CharactersComplete | src/app/bench_profile_codec.cpp:107-169 | Every spelled string is read to its end and to the text it means. |
| JsonTheorems.NumberComplete | src/app/bench_profile_codec.cpp:232-272 | Every spelled number before a stopping character is read to its end. |
| JsonTheorems.FreshStep | src/app/bench_profile_codec.cpp:171-207 | Checking keys one by one against those met so far is checking that all differ. |
| JsonTheorems.IsJsonExactlyWhenNumbersAreAscii | src/app/bench_profile_codec.cpp:232-272 | A syntax tree in the scanner's digits is JSON by RFC 8259 exactly when its numbers are ASCII. |
| JsonTheorems.TextIsJsonExactlyWhenReadInAscii | src/app/bench_profile_codec.cpp:232-272 | A text, accepted or not, is JSON by RFC 8259 exactly when the scanner's grammar reads it with all numbers in ASCII. |
| JsonTheorems.AsciiScanAcceptsExactlyTheJson | src/app/bench_profile_codec.cpp:232-272 | With ASCII digits alone the scanner accepts exactly those of its texts that are JSON by RFC 8259. |
| JsonTheorems.WiderDigitsPass | src/app/bench_profile_codec.cpp:243-247 | A one followed by a digit outside ASCII passes. |
| BenchProfiles.Decode | src/app/bench_profile_codec.cpp:789-1041 | Reads exactly the trees that valid profiles are written as: a valid profile is read back from its tree, and what is read is valid and written as the tree it came from; the validation at the end never fails. |
| BenchProfiles.Validate | src/app/bench_profile_codec.cpp:605-714 | The loops and sets accept exactly the valid profiles. |
| BenchProfiles.ValidExactlyWhen | src/app/bench_profile_codec.cpp:346-362 | The valid profiles, role by role, number by number and character by character: every number between zero and one, phrases without braces, names and identifiers within their bounds, nothing twice. |
| BenchProfiles.Write | src/app/bench_profile_codec.cpp:716-787 | Writes exactly the valid profiles. |
| BenchProfiles.ReadVoice | src/app/bench_profile_codec.cpp:973-1016 | The same for the voice. |
| BenchProfiles.ReadInteraction | src/app/bench_profile_codec.cpp:905-971 | The same for the interaction controls and the issue focus. |
| BenchProfiles.ReadFocus | src/app/bench_profile_codec.cpp:935-971 | The same for the focus entries, with unique topics. |
| BenchProfiles.ReadRoles | src/app/bench_profile_codec.cpp:875-891 | The same for court roles. |
| BenchProfiles.ReadTexts | src/app/bench_profile_codec.cpp:892-903 | The same for lists of unique texts. |
| Framing.ByteArray.AppendUint64 | src/app/local_session_provider.cpp:173-180 | The encoder that shifts by position yields the big-endian bytes. |
| Framing.ByteArray.AddUint64 | src/app/main_window.cpp:73-80 | The encoder that fills backwards yields the same bytes. |
| Framing.ByteArray.AppendFrame | src/app/local_session_provider.cpp:182-199 | A frame is the length and the bytes. |
| Framing.ByteArray.AddFrame | src/app/main_window.cpp:82-85 | The second framing yields the same frame. |
| Framing.ByteOfBigEndian | src/app/local_session_provider.cpp:173-180 | Each byte is the value shifted past the bytes that follow it. |
| Framing.FrameCancels | src/app/local_session_provider.cpp:182-199 | Equal frames in front of anything mean equal contents and equal rests. |
| Framing.CountedCancels | src/app/local_session_provider.cpp:201-209 | Equal counted lists of uniquely decodable elements are equal lists, with equal rests. |
| Framing.Utf8IsInjective | src/app/local_session_provider.cpp:187-190 | Texts with the same UTF-8 bytes are the same. |
| SessionIdentity.WorkflowLegalStateBytes | src/app/local_session_provider.cpp:428-471 | The bytes appended for a snapshot, field by field. |
| SessionIdentity.LegalStateBytesDetermineTheSnapshot | src/app/local_session_provider.cpp:428-471 | The hashed bytes determine every field of the snapshot. |
| SessionIdentity.WorkflowSessionBytes | src/app/local_session_provider.cpp:217-225 | The bytes of a workflow identity. |
| SessionIdentity.WorkflowBytesDetermineTheIdentity | src/app/local_session_provider.cpp:201-225 | They determine the closure, the case and the workflow. |
| SessionIdentity.OralSessionBytes | src/app/local_session_provider.cpp:227-238 | The bytes of an oral-argument identity. |
| SessionIdentity.OralBytesDetermineTheIdentity | src/app/local_session_provider.cpp:201-238 | They determine the closure, the case, the argument configuration and the legal state. |
| SessionIdentity.RecordAccessSessionBytes | src/app/main_window.cpp:168-178 | The bytes of a record-access identity, by the second framing. |
| SessionIdentity.AccessBytesDetermineTheIdentity | src/app/main_window.cpp:168-178 | They determine the revision and the case. |
| SessionIdentity.PurposesNeverCollide | src/app/local_session_provider.cpp:217-238 | Bytes hashed for one of the four purposes are never hashed for another. |
| WorkflowReplay.Replay | src/engine/src/workflow_engine.cpp:3059-3098 | Decides every command again, compares and applies its events. |
| WorkflowReplay.EntryReplaysExactlyWhen | src/engine/src/workflow_engine.cpp:2489-3098 | An entry replays exactly when its events are those decided again, its command is new, the headers number the events on from the state and within their group, and every content applies. |
| WorkflowReplay.DecidedExactlyWhen | src/engine/src/workflow_engine.cpp:2561-2702 | A command is decided exactly in its own session, under a valid identifier, with nothing pending and room in the journal, when the workflow decides one to three events. |
| WorkflowReplay.ReplayedJournalShape | src/engine/src/workflow_engine.cpp:2489-2556 | A journal that replays has groups of one to three events numbered from one without gaps, headed by their own command, each command once. |
| WorkflowReplay.EventCountIsBounded | src/app/workflow_session_controller.cpp:28-31 | The number of events is between once and three times the number of commands. |
| WorkflowRestore.RestoreSnapshot | src/app/workflow_session_controller.cpp:301-462 | Succeeds exactly on a snapshot that is the flattening of a journal that replays and whose documents can be read, and yields that journal and its state. |
| WorkflowRestore.ReadAll | src/app/workflow_session_controller.cpp:340-431 | Regroups the flat log and derives the docket and the documents on the way. |
| WorkflowRestore.ReadJournalIsLaidOut | src/app/workflow_session_controller.cpp:347-431 | What is regrouped is laid out in the rows: the expected sequences partition the log. |
| WorkflowRestore.RestorableIsRead | src/app/workflow_session_controller.cpp:301-462 | A journal that is laid out and replays is the one that is read back. |
| WorkflowRestore.OnlyOneJournal | src/app/workflow_session_controller.cpp:301-462 | At most one journal can be restored from a snapshot. |
| WorkflowRestore.StateCountsEvents | src/app/workflow_session_controller.cpp:456-460 | The check after the replay never fires. |
| WorkflowRestore.ReferencesEnumerateTheDocuments | src/app/workflow_session_controller.cpp:433-435 | Sorting and deduplicating yields each required document once, in order. |
| WorkflowSessions.FlattenedRestoresToItself | src/app/workflow_session_controller.cpp:301-462 | Every journal that replays, flattened, restores to itself and to nothing else. |
| WorkflowSessions.CommitKeepsLayout | src/app/workflow_session_controller.cpp:797-864 | The database after a commit is the flattening of the longer journal. |
| WorkflowSessions.ReferencesAreKept | src/app/workflow_session_controller.cpp:817-850 | Inserting the reference a command adds keeps the references sorted and complete. |
| WorkflowSessions.WorkflowSession.Submit | src/app/workflow_session_controller.cpp:757-888 | Exactly when a command goes through, what then changes, and that a corrupt session is never reported after a commit. |
| WorkflowSessions.WorkflowSession.Reload | src/app/workflow_session_controller.cpp:865-886 | The restoration after a commit yields what was submitted. |
| WorkflowSessions.ResumeAfterRun | src/app/workflow_session_controller.cpp:617-888 | After any run of submissions and store faults the database restores to exactly the journal it took. |
| OralSessions.ValidateSnapshot | src/app/oral_argument_session_controller.cpp:243-349 | Succeeds exactly on the log of some answers, and yields the state those answers lead to; the replay of the whole journal and the comparison at the end never fail. |
| OralEngine.SelectSeat | src/engine/src/oral_argument_engine.cpp:1430-1454 | The seat that speaks next is on the bench, and goes on only if it spoke last and may still follow up; which one it is in turn, `OralDecision.NextSeatSpeaks` says. |
| OralEngine.CheckNamespacedId | src/engine/src/oral_argument_engine.cpp:64-87 | The loop accepts exactly the identifiers of 3 to 160 letters and digits with single separators between them, and at least one. |
| OralEngine.ChooseQuestion | src/engine/src/oral_argument_engine.cpp:1904-1934 | The question chosen is one of the bank, on the issue asked for, with a record page when one is demanded. |
| OralEngine.AllowedIsWithinTheLimit | src/engine/src/oral_argument_engine.cpp:1128-1133 | The follow-ups a seat is allowed are the scaled depth rounded to the nearest whole number, and no more than the argument allows. |
| OralEngine.ProjectedIsSound | src/engine/src/oral_argument_engine.cpp:1248-1303 | In every projected state the phase and what remains on both clocks are given by the times of the answers and the expiries alone: at most one expiry for each clock, a running clock is never at zero, and an expired one always is. |
| OralEngine.ValidStatesAreTheProjected | src/engine/src/oral_argument_engine.cpp:2188-2218 | The limits that the state check asks for hold of every projection of at most 64 events, so a state is valid exactly when it is the projection of its journal. |
| OralEngine.DecisionIsAdmitted | src/engine/src/oral_argument_engine.cpp:1960-2184 | Whatever is decided in a projected state, on a valid answer, passes the checks of shape, order, clock and follow-ups. |
| OralEngine.ProjectionAcceptsExactlyDecisions | src/engine/src/oral_argument_engine.cpp:2129-2186 | With all its checks, a step of the projection accepts exactly the opening, or the decision on the event's own valid answer. |
| OralEngine.ApplyingIsProjecting | src/engine/src/oral_argument_engine.cpp:2378-2410 | In a valid state, applying an event and projecting it are the same. |
| OralEngine.OpeningFacts | src/engine/src/oral_argument_engine.cpp:2350-2410 | A planned opening always applies. |
| OralEngine.AnswerFacts | src/engine/src/oral_argument_engine.cpp:2362-2410 | A decided answer always applies. |
| OralEngine.ReplayJournal | src/engine/src/oral_argument_engine.cpp:2412-2432 | Projects a whole journal by checking and deciding every event again, and stops at the first that is refused. |
| OralDecision.ProjectedIsReadOff | src/engine/src/oral_argument_engine.cpp:1248-1303 | In every projected state the seat that spoke last, the follow-ups in a row, the transcript and the concessions are those of the events. |
| OralDecision.ChoiceIsPreferred | src/engine/src/oral_argument_engine.cpp:1904-1934 | A question is chosen whenever one is on offer, and it is the one that the style gives among the questions on the topics the seat cares about most, each once, by identifier. |
| OralDecision.DecisionIsCalledFor | src/engine/src/oral_argument_engine.cpp:2044-2127 | A decided answer is what the transcript and the answer call for: the presiding seat ends the phase exactly when counsel used all that remained; otherwise the last seat goes on while it may and then the next one speaks, with the act that the confidence, the claim, the concession and the habits of the seat call for, on a preferred question about the issue. |
| OralDecision.EveryEventIsCalledFor | src/engine/src/oral_argument_engine.cpp:2129-2186 | So is every event of an accepted transcript, and the first one is an opening by the presiding seat. |
| OralDecision.DecidedExactlyWhen | src/engine/src/oral_argument_engine.cpp:2044-2127 | An answer is decided exactly when it is proper, a clock runs, there is room for an event, and the time is over or the seat in turn finds words for the chosen question. |
| OralDecision.OpenedExactlyWhen | src/engine/src/oral_argument_engine.cpp:2016-2042 | An argument opens exactly when the presiding seat finds words for a question of the bank. |
| OralDecision.NextSeatSpeaks | src/engine/src/oral_argument_engine.cpp:1430-1454 | After a seat that may not follow up any more the next one on the bench speaks, and after the last the first. |
| OralDecision.EverySeatSpeaks | src/engine/src/oral_argument_engine.cpp:1430-1454 | As many such turns in a row as there are seats let every seat speak. |
| OralSessions.ArguedIsItsProjection | src/engine/src/oral_argument_engine.cpp:2129-2186 | The state reached answer by answer is the projection of its own journal. |
| OralSessions.AnswersDetermineTheLog | src/app/oral_argument_session_controller.cpp:319-337 | Two accepted logs of the same answers have the same events. |
| OralSessions.OnlyTheseAnswers | src/app/oral_argument_session_controller.cpp:243-349 | The rows determine the answers. |
| OralSessions.TranscriptsArePrefixes | src/app/oral_argument_session_controller.cpp:264-341 | The transcript only grows at its end. |
| OralSessions.Create | src/app/oral_argument_session_controller.cpp:599-669 | A new session is created exactly when its opening can be planned and encoded, and its first event is such an opening; its verification never fails. |
| OralSessions.OralSession.Submit | src/app/oral_argument_session_controller.cpp:846-897 | Exactly when an answer goes through, what then changes, that the event is what the transcript and the answer call for, and that verification after a commit never fails. |
| OralSessions.AcceptsWhatItWrote | src/app/oral_argument_session_controller.cpp:599-897 | Every log written by a creation and any answers after it, within the limit of 64 events, is accepted again. |
| Sorting.SortSorts | src/app/workflow_session_controller.cpp:433-433 | Sorting yields an ordered permutation. |
| Sorting.StringLeqExactly | src/engine/src/procedure_engine.cpp:240-240 | A string comes before another exactly when, at some place up to which they agree, it ends or has the smaller character. |
| Sorting.UniqueOfSorted | src/app/workflow_session_controller.cpp:434-435 | Removing repeated neighbours of a sorted list removes every repetition. |
| Sorting.SortedEnumerationIsUnique | src/app/workflow_session_controller.cpp:433-437 | A set has one sorted enumeration, so comparing lists compares sets. |

## Left out

- System calls of the authoring transaction: permissions, inode checks, locks and descriptor anchoring are steps that may fail and change nothing.
- Digests: a digest stands for the bytes it was made of, and collisions do not occur; SHA-256 itself is not modelled.
- AuthoringRuns.AnyRunWithCrashes: needs every command to start where it may, because without that the property is false, as shown above; bytes that other programs write to the targets between commands are not modelled.
- AuthoringRuns.StartingElsewhereSpoils: is stated for a transaction directory without foreign members, because a foreign member stops every clean-up before or after the journal is gone, as the order of the listing has it.
- RealismTransaction.Load: the journal's text and its path checks are one value that is either there or not.
- ProcedureEngine.Replay: dates are day numbers with a validity flag, without the year range of the C++ calendar; the text checks of a canonical provenance are one flag.
- SessionStorage.SessionStore.Append: limits on text sizes and all input and output failures of the database are the fault parameter; what is loaded is what was committed.
- SessionControl.Reopen: resolving a pack into pins, and record-access sessions, are not modelled.
- RecordValidation.Validate: metadata maps are not modelled, because no check reads them; which files exist is a parameter.
- RecordWorkspaces.RecordWorkspace.OpenDocument: the PDF engine, text search, page widgets and the lifetime of the temporary snapshot are not modelled; identifiers in an access projection are taken as already decoded from UTF-8.
- InstalledRecord.PublicDefinition: verification and materialisation of assets before it are not modelled.
- BenchProfiles.Decode: error codes, the size limit, the text form of the tree and enumeration values outside their range are not modelled; numbers are reals, and the predicates on identifiers and phrases that rest on the regular-expression engine and on character classes are parameters.
- SessionIdentity.WorkflowLegalStateBytes: texts are sequences of Unicode scalars, so a text with an unpaired surrogate, which the conversion to UTF-8 would replace, is outside the model.
- WorkflowRestore.RestoreSnapshot: its error codes are not distinguished, and what the workflow operations decide and change is a parameter, with the law that decided events carry the identifier of their command.
- OralSessions.ValidateSnapshot: its error codes are not distinguished, and the legacy form of the session is not modelled.
- OralEngine.ProjectedIsSound: profile numbers are reals; the wording of an utterance, the number a style contributes to the choice of a question, and the checks of names, phrases, topics and digests of a definition are parameters; the digests a state repeats from its definition are left out.
- The user interface, the workflow action planner, session archives, pack resolution and the catalog commands are not modelled.
