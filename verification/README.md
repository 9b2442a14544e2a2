# What a build run may do, spend and deliver

A Dafny model of the parts of SkyN3t that decide what a build run may write, how much it may spend, which models it may ask, and what it hands over. Each part is a module, or a few:

- **Delivery** (`file_tree`, `worktree`). A project is a tree of files with bytes and mode, directories and aliases. The recursive cleaner and the copier of `merge_back` change it in place. Cleaning and copying give an exact mirror of the deliverable files if and only if no source file falls on a directory that the cleaner must keep for an ignored entry inside; in that case `copy2` copies into the directory.
- **Snapshots** (`tree_walk`, `tree_snapshot`, `digest_stream`, `source_view`). The explicit-stack walk is the recursive walk, it lists what the recursive glob lists, or the authored files, and the hashed stream can be decoded.
- **Budget** (`budget_tracker`, `ledger_protocol`). One tracker as a class, and any number of them as interleaved steps over one file: no update is lost, trackers may be created at any time, and the daily cap is overshot by at most one call for each worker.
- **Retry and failover** (`call_trace`, `call_candidates`, `resilient_call`). The nested loops over candidates and attempts, against a world that answers, fails and lets time pass as it likes. Whatever happens is recorded by the part of the world it happens to: readings of the clock, requests, sleeps, quarantines, and giving up. The contract of a call is about that record.
- **Process sweep** (`process_sweep`). Freeze first, then list the children, while other processes fork and exit.
- **Agentic session** (`json`, `tool_calls`, `crlf_edit`, `workspace_tools`, `conversation`, `session_trace`, `agentic_loop`). Validation of tool batches, the write tools and the exact-match edit, the conversation and its compaction, and the loop with all its guards, against arbitrary provider replies.
- **Rollback** (`session_pruning`, `code_improver`) and **build cache** (`npm_build_cache`). Pruning and undo of an arbitrary edit session, and a receipt that stands for the real tree.
- **Small but exact** (`provider_limits`, `model_slot`).

`options` and `text` hold what the others share.

## Where the code and its promises part

The model follows the code. Each of these has an exact condition and, where it takes one, a concrete witness among the members below.

- A clean delivery is not a mirror when a source file meets a surviving directory (`Worktree.Project.MergeBack`, `Worktree.ClashHappens`).
- A snippet whose decoded form ends in a bare CR matches half of a CRLF line end, and the edit can leave a bare LF (`CrlfEdit.RefinementIff`, `CrlfEdit.EditLeavesBareLf`).
- Compaction is meant to drop only bodies that were persisted. A batch with some file out of scope, whose other files are in place, reports `OK unchanged batch`, a text without the word that guards compaction; its refused bodies are dropped too. That is the only case, and it can be told before the call (`WorkspaceTools.Workspace.WriteFiles`, `WorkspaceTools.RefusedBodyIsDropped`, `AgenticLoop.Session.RunCall`).
- "Repeating a no-op write is no progress" holds only for bodies without CR, since the comparison reads the file in text mode. A session that rewrites one body with a CR counts as productive, and success with a positive count then need not mean a changed file (`WorkspaceTools.Workspace.WriteFile`, `WorkspaceTools.CountedChangeIsReal`, `WorkspaceTools.CountedWithoutChange`).
- A rollback is exact only for trees in which every tracked file can still be reached (`CodeImprover.RollbackIff`); it restores the text, so a file that is written back loses its CRs (`CodeImprover.RollbackBytes`, `CodeImprover.RollbackLosesCr`).
- A directory named like a configuration file makes the build cache miss, although no manifest records it (`NpmBuildCache.ReceiptStandsForBuild`, `NpmBuildCache.ConfigDirectoryMisses`).
- A sweep can miss a process when one whose children were already listed adopts it (`ProcessSweep.StepInv`, `ProcessSweep.AdoptionByListedProcessEscapes`).
- Freezing a process before listing its children is meant to keep the sweep to the tree of the root. When the root is gone, a child still in hand can fork, and the sweep takes a process that never reached the root (`ProcessSweep.OwnsDescendants`, `ProcessSweep.LostRootsGrandchild`).
- A bare `@high` is said to pin no route and to be dropped like a blank token. It is taken for a model of that name (`ModelSlots.EmptyIffBlank`).

## Model

| member | source | states |
|---|---|---|
| `Worktree.Project.CleanChild` | skyn3t/worktree.py:297-326 | One directory is cleaned child by child: aliases and authored entries go, ignored ones stay, and a directory is removed only when nothing in it had to stay. |
| `Worktree.Project.CleanDeliverableContents` | skyn3t/worktree.py:284-326 | The recursive deletion computes the specification of a cleaned tree, in place and touching nothing outside the directory. |
| `Worktree.CleanedKeepsIgnored` | skyn3t/worktree.py:284-326 | In a cleaned tree everything at or below an ignored name, at any depth, is unchanged, except that an alias carrying such a name is gone. |
| `Worktree.CleanedElsewhere` | skyn3t/worktree.py:284-326 | Everything else is gone but the directories that lead to a surviving ignored entry. |
| `Worktree.IterFiles` | skyn3t/worktree.py:328-340 | The listing has exactly the regular files with no ignored path component, each once. |
| `Worktree.Project.CopyFiles` | skyn3t/worktree.py:404-433 | A listed file is copied, and reported, exactly when the destination takes it: no alias at or above its place, nothing there unless overwriting, and in a directory there no directory of the same name; it then is in its place or inside that directory. Every other path is as it was, or a new parent, be the loop cut short or not; it raises only when a file of the source would have to lie below a file; without overwriting no existing path changes, and no alias ever does. |
| `Worktree.MirrorExactlyWithoutClash` | skyn3t/worktree.py:377-433 | Cleaning and then copying every source file gives an exact mirror if and only if no source file falls on a directory that cleaning must keep. |
| `Worktree.Project.MergeBack` | skyn3t/worktree.py:377-433 | A clean delivery mirrors paths, bytes and modes of all deliverable files exactly when there is no clash, keeps everything under ignored names, leaves no authored alias and never raises. A delivery that does not clean raises exactly when a file would have to lie below a file; otherwise it copies and reports exactly the files that the destination takes, and each is where it belongs. In either case it changes nothing but new parents and places of delivered files, and keeps aliases and everything under ignored names. |
| `Worktree.ClashHappens` | skyn3t/worktree.py:297-326 | A concrete clash: the source has a file where the destination directory holds a repository. |
| `Worktree.IgnoredIff` | skyn3t/worktree.py:39-56 | A name is ignored exactly when it differs in case only from one of the fourteen names, as the source writes them. |
| `Text.FoldedLetter` | skyn3t/worktree.py:281-281 | Folding turns the capital letters of the alphabet into small ones and leaves everything else. |
| `SourceView.DeliverableIff` | skyn3t/worktree.py:328-340 | A deliverable file is a regular one with no name on its path that agrees but for its case with an ignored one. |
| `TreeWalk.WalkElements` | skyn3t/worktree.py:498-577 | The recursive walk meets exactly the entries whose directories above are all walked. |
| `TreeWalk.WalkDistinct` | skyn3t/worktree.py:498-577 | The walk meets no path twice. |
| `TreeWalk.PushChildren` | skyn3t/worktree.py:525-577 | Pushing the reversed child directories on the stack puts their walks next, in order: the stack walk is the recursive walk. |
| `TreeSnapshot.CountAll` | skyn3t/worktree.py:498-577 | The visits of the stack walk are counted, checked and listed like those of the recursive definition. |
| `TreeSnapshot.Collect` | skyn3t/worktree.py:498-577 | The explicit-stack loop ends with the tally of the whole recursive walk, or has stopped because a limit is exceeded. |
| `TreeSnapshot.Digest` | skyn3t/worktree.py:579-655 | The reading loop emits the stream of the listed files while within the byte budget. |
| `TreeSnapshot.TakeSnapshot` | skyn3t/worktree.py:444-675 | The snapshot is valid exactly when no alias was met, no two paths differ in case only, and every limit holds; then its list, byte count and digest input are those of the tree, and it reports how many entries were neither walked nor listed. A limit that is not positive is an error. |
| `TreeSnapshot.TwoWalkersAgree` | skyn3t/worktree.py:328-340 | The list of a deliverable snapshot is exactly the set of paths that the recursive-glob filter yields. |
| `SourceView.SourceListsAuthored` | skyn3t/worktree.py:525-577 | The list of a source snapshot is exactly the set of authored files: regular files with no source exclusion among the directories above, with a name of their own that is not ignored, and not at or below the two metadata files and two proof directories of the runner; all in any case of letters. |
| `SourceView.SourceValidIff` | skyn3t/worktree.py:444-675 | A source snapshot is valid exactly when nothing it gets to is an alias, no two authored files differ in case only, and files, bytes and entries are within their limits. |
| `SourceView.SourceStreamsDiffer` | skyn3t/worktree.py:579-655 | Trees that differ in an authored file, without zero bytes, have different source streams. |
| `SourceView.FileSizeAt` | skyn3t/worktree.py:579-640 | A listed file counts with the length of its content, and enters the stream with its path, its mode in octal and its content. |
| `TreeSnapshot.SortedFilesShape` | skyn3t/worktree.py:577-584 | The list is strictly sorted by folded name, then name, and loses no listed file. |
| `Text.KeyLeIff` | skyn3t/worktree.py:577-584 | The order of the list: by the first letter that differs but for its case, and by case only between names that agree otherwise. |
| `DigestStream.StreamDecodes` | skyn3t/worktree.py:579-655 | Over files without zero bytes, equal streams mean the same view, the same paths in order, and the same modes and contents; a source and a deliverable stream never coincide. |
| `DigestStream.MirrorHasSameStream` | skyn3t/worktree.py:377-433 | An exact mirror has the same sorted list, byte count and deliverable stream on both sides. |
| `DigestStream.DeliverySnapshot` | skyn3t/worktree.py:695-716 | After an exact clean delivery the deliverable stream is that of the source, and a snapshot that was valid for the source is valid for the destination if and only if the entries there stay within their limit. |
| `BudgetTracker.Tracker.Record` | skyn3t/adapters/llm.py:1754-1756 | The whole transaction, on counters, file, build spend and call list. |
| `BudgetTracker.Tracker.Check` | skyn3t/adapters/llm.py:1792-1812 | The check fails exactly when a positive cap is exceeded, by the spend of the build or by the money or tokens of the day after the merging reload, and names the first such cap in the order build, day, tokens. |
| `BudgetTracker.Tracker.RecordAndCheck` | skyn3t/adapters/llm.py:1758-1770 | Same final state and same outcome as recording and then checking; the outcome is told by the spends and caps as for a check. |
| `BudgetTracker.CheckAfterRecordIsNoOp` | skyn3t/adapters/llm.py:1758-1770 | After a save, the merging reload of a check changes nothing. |
| `LedgerProtocol.StepInv` | skyn3t/adapters/llm.py:1754-1926 | Every step of any worker, every change of day, and every new tracker keeps the ledger invariant. |
| `LedgerProtocol.NoLostUpdates` | skyn3t/adapters/llm.py:1772-1796 | In every interleaving, from any true ledger and with trackers created at any time, the file carries exactly the sums of all results of the day it names, and on a day the file does not name nothing has been recorded. |
| `LedgerProtocol.StepBounded` | skyn3t/adapters/llm.py:1758-1812 | Every step, rollover and new trackers included, keeps total + c * in-flight within cap + N * c, or within what the day started from. |
| `LedgerProtocol.OvershootBound` | skyn3t/adapters/llm.py:1758-1812 | With N workers and calls of cost at most c the total of a day never exceeds the cap by more than N * c, unless the ledger started higher, and then it does not rise. |
| `LedgerProtocol.FlightNeedsRoom` | skyn3t/adapters/llm.py:1792-1812 | A worker takes flight exactly by a check that finds every configured cap respected: the spend of its build, and the exact money and tokens of the day. |
| `LedgerProtocol.TokenOvershootBound` | skyn3t/adapters/llm.py:1758-1812 | With N workers and calls of at most d tokens the tokens of a day never pass their cap by more than N * d, unless the ledger started higher, and then they do not rise. |
| `LedgerProtocol.RecordStepsAreRecord` | skyn3t/adapters/llm.py:1772-1790 | The interleaved steps of a recording worker, taken alone, are the transaction of the class; the last one releases the lock and ends the flight exactly when the call is over. |
| `LedgerProtocol.CheckStepsAreCheck` | skyn3t/adapters/llm.py:1792-1796 | Likewise for a check; its last step releases the lock and lets the worker fly exactly when the verdict on the caps is clear. |
| `LedgerProtocol.NobodyIsStuck` | skyn3t/adapters/llm.py:1754-1812 | In every reachable state the holder of the lock can go on and every step brings it nearer to the release; or the lock is free, and every idle worker may check and every one in flight may record. |
| `LedgerProtocol.CreatedAsConstructed` | skyn3t/adapters/llm.py:1750-1752 | A tracker created during a run is the one the constructor makes. |
| `LedgerProtocol.AnyLedgerStarts` | skyn3t/adapters/llm.py:1863-1890 | A run may start from any ledger with non-negative totals of today or an earlier day, and from none: what earlier runs spent is carried into the totals. |
| `CallTrace.EventKeeps` | skyn3t/adapters/llm.py:2995-3064 | One more event, of whichever kind, keeps the rules of a call: order, server minimums, backoffs, deadline checks, sleeps and reasons to give up. |
| `CallTrace.NextTurn` | skyn3t/adapters/llm.py:3101-3109 | A transient failure followed by a sleep of at least its backoff leads to the next attempt on the model: all backoffs on it have then been slept. |
| `CallTrace.ReadsStep` | skyn3t/adapters/llm.py:2893-2906 | Looking up quarantines only reads the clock: it neither disturbs a call nor adds attempts. |
| `CallTrace.NegativeBackoff` | skyn3t/adapters/llm.py:2851-2859 | A negative backoff comes only from a negative setting. |
| `CallTrace.BackoffDoubles` | skyn3t/adapters/llm.py:2851-2859 | The backoff starts at the base delay and doubles with each attempt, up to the cap. |
| `CallCandidates.TurnsOver` | skyn3t/adapters/llm.py:2845-2849 | On exhaustion a candidate whose last failure was no model error had exactly its configured retries plus one attempts, at most one retry for every candidate but the first, and none with retries off; no candidate had more. |
| `ResilientCall.Client.ModelUnhealthy` | skyn3t/adapters/llm.py:2893-2903 | A model is avoided exactly while its quarantine lasts at the reading of the clock; exactly when it has expired is its entry, and no other, dropped, and the clock is read exactly when there is an entry. |
| `ResilientCall.Client.HealthyFallbacks` | skyn3t/adapters/llm.py:2905-2906 | The operator choices and then the router proposals, in that order, without repeats or the primary: all that were healthy when the selection began and none still in quarantine when it ended; none when failover is off. |
| `ResilientCall.Client.MarkUnhealthy` | skyn3t/adapters/llm.py:2908-2917 | The quarantine runs for its time to live from a reading of the clock, or as long as an earlier one. |
| `ResilientCall.Client.WaitRetry` | skyn3t/adapters/llm.py:3009-3022 | When the wait passes, the call has slept for exactly that delay, right after a reading by which the sleep stays before the deadline; otherwise, as for any negative delay, it is given up, right after the event that is the reason. |
| `ResilientCall.Client.Check` | skyn3t/adapters/llm.py:3035-3064 | The deadline test: it passes only on a reading before the deadline, and gives the call up only on one at or after it. |
| `ResilientCall.Client.RetryDelay` | skyn3t/adapters/llm.py:2851-2859 | The exponential backoff, capped, with up to half of it added. |
| `ResilientCall.Client.AfterFailure` | skyn3t/adapters/llm.py:3073-3112 | After a failure that is not fatal the model is tried again exactly when the failure was transient and its budget lasts, after the wait; otherwise the next candidate has its turn, or the call is given up for a reason. |
| `ResilientCall.Client.TryModel` | skyn3t/adapters/llm.py:3043-3109 | A candidate gets at most its budget plus one attempts, and each retry follows a transient failure and a sleep of at least its backoff; it is left to the next one only after a model error or with its budget used up, and otherwise the call is over, for a reason that the trace shows. |
| `ResilientCall.Client.Extend` | skyn3t/adapters/llm.py:3118-3132 | The lazy extension adds healthy models not yet on the list, in order and at most the cap, and leaves none out unless the cap is reached. |
| `ResilientCall.Client.ChooseFirst` | skyn3t/adapters/llm.py:3024-3032 | The primary is skipped exactly when it is in quarantine at the reading of the test and some fallback is healthy; the call then starts from all healthy fallbacks. |
| `ResilientCall.Client.Walk` | skyn3t/adapters/llm.py:3034-3150 | Candidates stay distinct, all attempts are on them and within what the settings allow; exhaustion means that each had its whole turn and was quarantined and no healthy fallback was left out below the cap. |
| `ResilientCall.Client.ResilientCall` | skyn3t/adapters/llm.py:2951-3150 | The whole call, on the record that the clock, the provider and the sleeps leave: the deadline is the first reading plus the configured limit; between an attempt or a sleep and a later attempt the clock was read before the deadline; every sleep follows at once on a reading by which it stays before it; every attempt honours every earlier server minimum, and the first of two attempts on one model failed in passing, and between them lies a sleep of at least its backoff; no attempt after an answer or a fatal error. A primary in quarantine at its test is skipped exactly when a fallback is healthy, and then never tried. At most (R+1) + (n-1)(min(R,1)+1) attempts over n distinct candidates, n at most the initial ones plus the cap, where R is the configured number of retries, 0 when they are off or negative; on exhaustion a candidate whose last failure was no model error had all its attempts. A fatal error raises itself, and every other failure the first error: on exhaustion, with every candidate tried and quarantined, or when the call was given up on a reading that reaches the deadline, an overlong server wait, or a negative backoff. |
| `ProcessSweep.StepInv` | skyn3t/adapters/llm.py:5630-5668 | Every step of the sweep or of the unfrozen processes keeps the invariant, that what was listed is frozen and owned and its children are in hand or listed, if and only if it lets no listed process adopt an orphan that the loop has missed. |
| `ProcessSweep.SweepComplete` | skyn3t/adapters/llm.py:5637-5652 | When the loop has ended, every live process whose parent chain reaches the root is suspended and owned, in every run whose steps keep to that condition on orphans. |
| `ProcessSweep.KillLeavesNoDescendant` | skyn3t/adapters/llm.py:5653-5668 | After the last kill nothing reaches the root, and no survivor has a parent among the listed processes. |
| `ProcessSweep.DoomedDie` | skyn3t/adapters/llm.py:5653-5668 | What reached the root at the end of the loop is dead after the kills, whatever happens meanwhile. |
| `ProcessSweep.OwnedFromTheRoot` | skyn3t/adapters/llm.py:5637-5652 | What the sweep owns is the root, or was in some state of the run a child of a process it owned by then. |
| `ProcessSweep.StrangersSpared` | skyn3t/adapters/llm.py:5637-5668 | A process outside the family of the root, that is, outside a set that holds the root and all that ever are children of a member, is never suspended, owned or killed. |
| `ProcessSweep.DeathHasACause` | skyn3t/adapters/llm.py:5653-5668 | A process dies only by its own exit or because the sweep owned it. |
| `ProcessSweep.OwnedAreKilled` | skyn3t/adapters/llm.py:5653-5668 | When the kills are over everything the sweep owned is dead, even when it was cut short or an orphan escaped it. |
| `ProcessSweep.SweepGoesOn` | skyn3t/adapters/llm.py:5637-5668 | Until the last kill the sweep has a step to take, whatever the other processes do. |
| `ProcessSweep.SweepStepsDown` | skyn3t/adapters/llm.py:5637-5668 | Every step of the sweep lowers a measure that only a fork can raise: between two forks it takes finitely many steps. |
| `ProcessSweep.OwnsDescendants` | skyn3t/adapters/llm.py:5637-5652 | As long as no owned process exits by itself, everything the loop owns reaches the root at that time. |
| `ProcessSweep.LostRootsGrandchild` | skyn3t/adapters/llm.py:5637-5652 | The condition is needed: a run in which the listed root exits, a child still in hand forks, and the loop owns a process that reaches the root in no state of the run. |
| `ProcessSweep.AdoptionByListedProcessEscapes` | skyn3t/adapters/llm.py:5637-5652 | The condition on orphans is needed: a run in which a frozen, already listed process adopts an orphan that the sweep then misses. |
| `CrlfEdit.CountsAgreeIff` | skyn3t/adapters/llm.py:3838-3838 | The two newline counts agree exactly when every LF follows a CR, that is, when encoding undoes decoding. |
| `CrlfEdit.EncodedMatches` | skyn3t/adapters/llm.py:3838-3841 | Encoding a text and a snippet keeps the number of non-overlapping matches, and replacing commutes with encoding. |
| `CrlfEdit.CrlfEditRefinesLfEdit` | skyn3t/adapters/llm.py:3831-3850 | Editing a CRLF file is decoding it, editing the LF text and encoding the result, with the same count and the same verdict; the file stays consistently CRLF. |
| `CrlfEdit.HalfALineEnd` | skyn3t/adapters/llm.py:3838-3841 | A snippet that ends in a bare CR matches half of a line end: a text in which it does not occur although its encoding does. |
| `CrlfEdit.EditLeavesBareLf` | skyn3t/adapters/llm.py:3838-3849 | A concrete edit of a CRLF file, with such a snippet, that leaves a bare LF. |
| `CrlfEdit.RefinementIff` | skyn3t/adapters/llm.py:3831-3850 | The refinement holds for every CRLF file and replacement if and only if the decoded snippet does not end in CR. |
| `CrlfEdit.EditTextIs` | skyn3t/adapters/llm.py:3838-3850 | Snippets are taken as they are, except in a file that has line ends and no LF without a CR before it. |
| `CrlfEdit.EditIsLocal` | skyn3t/adapters/llm.py:3841-3849 | An edit succeeds exactly when it replaces the first match and no match follows; everything around the match is kept. |
| `CrlfEdit.EditOutcome` | skyn3t/adapters/llm.py:3841-3846 | An edit finds nothing exactly when there is no match, is ambiguous exactly when another follows the first, and is unchanged exactly when a single match is replaced by itself. |
| `ToolCalls.ValidateBatch` | skyn3t/adapters/llm.py:1425-1520 | A batch is accepted exactly when it is non-empty, every item asks for a call, and no id is used twice. A call has the id and the name of its item, one of the six tools, arguments that suit it, and their text: as given, when it is a text that holds them, and printed when they are an object. A rejected batch yields no calls at all. |
| `ToolCalls.ParseCallStands` | skyn3t/adapters/llm.py:1450-1518 | An item is parsed to exactly the call that it asks for. |
| `ToolCalls.CompactWriteCall` | skyn3t/adapters/llm.py:3161-3242 | The loop over the files of a write call yields the compacted call, and reports exactly the bytes it saves, none when the receipts are longer than the bodies. |
| `ToolCalls.CompactedIsReceipt` | skyn3t/adapters/llm.py:3189-3235 | A compacted call is recognised as a receipt, as a whole and file by file, still has valid arguments, and differs from the call only in a mark with the number of files or bytes, and in each body, which gives way to a notice of its size. |
| `ToolCalls.ConfirmedIff` | skyn3t/adapters/llm.py:3180-3188 | A report confirms a write exactly when it is one of the successful ones of the write tools and speaks of no rejection, in any case of letters: a batch that refused no file, or a file whose path does not contain the word. |
| `ToolCalls.IsReceiptIff` | skyn3t/persisted_write.py:36-45 | A call or file is a receipt when it carries the mark, itself or in its content, or its content is the text of one. |
| `WorkspaceTools.CountedChangeIsReal` | skyn3t/adapters/llm.py:3867-3884 | A counted change leaves the project as it was if and only if it writes a text over itself, and then the text has a CR; no path outside the rules ever changes. |
| `WorkspaceTools.CountedWithoutChange` | skyn3t/adapters/llm.py:3867-3884 | A concrete history that counts a change and changes nothing. |
| `WorkspaceTools.Workspace.EditFile` | skyn3t/adapters/llm.py:3816-3852 | Refused exactly for paths that escape, are not owned, are binary or no file, for receipts, and without exactly one match; otherwise the one file becomes the edited text, which differs from before, or is reported unchanged. |
| `WorkspaceTools.Workspace.WriteFile` | skyn3t/adapters/llm.py:3853-3884 | Refused exactly for receipts and for paths that escape, are not owned or are binary; reported unchanged exactly when the file reads as the text already; else the file holds the text. A repeated body is counted as a change if and only if it has a CR. |
| `WorkspaceTools.Workspace.Resolve` | skyn3t/adapters/llm.py:3893-3918 | A batch resolves exactly when no file in it is a receipt, escapes, or repeats a path; this is decided before anything is written. |
| `WorkspaceTools.Workspace.Changing` | skyn3t/adapters/llm.py:3937-3944 | Exactly the files that do not read as their text already. |
| `WorkspaceTools.Workspace.WriteEach` | skyn3t/adapters/llm.py:3945-3947 | Writing one by one gives the batch result, since the paths are distinct. |
| `WorkspaceTools.Workspace.WriteFiles` | skyn3t/adapters/llm.py:3885-3977 | The error cases exactly; all-or-nothing resolution; an allowed file that does not read as its text yet holds it afterwards and every other file is as it was; the call is fully persisted if and only if the tool does not report failure; and a batch that is not fully persisted reads like a success if and only if some of its files are allowed, not all are, and the allowed ones were in place. |
| `WorkspaceTools.Workspace.RunTool` | skyn3t/adapters/llm.py:3810-4022 | What every call does to every file and what it reports: an error exactly when the tool refuses, and then nothing has changed; otherwise whether the text was there already. Only the write tools change files, as many as the count reported; a write that reports success is fully persisted if and only if it does not also report failure; and which writes read like a success without being persisted. |
| `WorkspaceTools.RefusedBodyIsDropped` | skyn3t/adapters/llm.py:3948-3953 | The promise that only persisted bodies leave the history fails: a batch with one file out of scope and the other in place is compacted, although one body was never written. |
| `Text.UniversalFixed` | skyn3t/adapters/llm.py:3868-3871 | Reading in text mode gives the text back exactly when it has no CR, so rewriting a body with a CR always counts as a change. |
| `WorkspaceTools.UniversalDecodes` | skyn3t/adapters/llm.py:3868-3871 | Text mode decodes CRLF line ends and takes any CR that is left for one. |
| `Conversation.WellFormedAppend` | skyn3t/adapters/llm.py:4388-4490 | Conversations can be joined: well-formedness of the rest decides. |
| `Conversation.AnsweredBatch` | skyn3t/adapters/llm.py:4388-4490 | An assistant message with distinct call ids, followed by one result for each in order, keeps a conversation well-formed. |
| `Conversation.SameShapeWellFormed` | skyn3t/adapters/llm.py:3161-3284 | Rewriting call arguments or result contents keeps a conversation well-formed. |
| `Conversation.ElideOldest` | skyn3t/adapters/llm.py:3262-3283 | The loop with its running total ends with the shortest oldest-first prefix that meets the budget. |
| `Conversation.EditContext` | skyn3t/adapters/llm.py:3244-3287 | The copy sent is the history itself when editing is off or the budget met; else exactly the shortest oldest-first prefix of the eligible results that meets the budget is elided, or all of them. Nothing changes but results of more than 200 bytes with at least the protected number of results after them, each into a notice of its length; the shape is kept. |
| `Conversation.EditedOneWay` | skyn3t/adapters/llm.py:3244-3287 | History and settings determine the copy: there is only one way to elide no more than needed. |
| `AgenticLoop.NothingMissing` | skyn3t/adapters/llm.py:3792-3808 | The missing count is zero exactly when every planned path has a body that is no receipt. |
| `AgenticLoop.Session.Ask` | skyn3t/adapters/llm.py:4161-4260 | Exactly the tried models that are not exhausted get a request, with the one edited copy of the history that the budget asks for; the model that answers is kept. |
| `AgenticLoop.Session.SwitchToFallback` | skyn3t/adapters/llm.py:4116-4147 | A switch happens exactly when failover is on, the number of fallbacks allows it and a fresh model is on offer; then the old model is exhausted and reported unhealthy, and the idle count starts over. |
| `AgenticLoop.Session.CountChange` | skyn3t/adapters/llm.py:4421-4467 | After a change the missing count is the true one and the window has the last sixteen changed paths, normalised; with better coverage the counts of stagnation and helpers start over, otherwise they grow by exactly what the change adds. |
| `AgenticLoop.Session.RunCall` | skyn3t/adapters/llm.py:4397-4489 | One call: the project and the result are as the tool says, the counters go on standing for the project, the call is among the last three, and its arguments are compacted exactly when the result confirms a write; a body leaves the conversation unpersisted exactly in the quiet refusal, a condition on the project before the call. |
| `AgenticLoop.Session.RunBatch` | skyn3t/adapters/llm.py:4388-4490 | A validated batch adds one assistant message, with each call as it is kept, and then the rendered results under the ids of the calls, in order, and nothing else; the project is what the calls leave one after the other. It finishes the session exactly when a call is finish. |
| `AgenticLoop.Session.RejectBatch` | skyn3t/adapters/llm.py:4367-4385 | A rejected batch is a reply; it adds one user message, twice a session, and ends the session the third time. |
| `AgenticLoop.Session.TakeBatch` | skyn3t/adapters/llm.py:4365-4490 | A batch runs exactly when it validates, and then the calls that its items ask for are in the conversation with their results and have done to the project what they say; a rejected one is a reply that runs no tool, changes no file and adds no result, and ends the session the third time. |
| `AgenticLoop.Session.TakeTruncated` | skyn3t/adapters/llm.py:4347-4362 | A truncated reply counts as one, and is recovered from twice a session. |
| `AgenticLoop.Session.TakeProse` | skyn3t/adapters/llm.py:4480-4495 | A reply without calls finishes the session exactly when its text is not blank. |
| `AgenticLoop.Session.EndTurn` | skyn3t/adapters/llm.py:4496-4506 | A turn that changed a file resets the idle count, any other adds one; an idle model is told so exactly once its idle turns reach the feedback limit and until it changes a file again. |
| `AgenticLoop.Session.TakeReply` | skyn3t/adapters/llm.py:4318-4506 | What becomes of a reply: the project is what its calls leave, when they are taken, and unchanged otherwise; the conversation gains its calls with their results, or its text, and at most one word on the lack of progress; the session is finished exactly by a text that is not blank or a call of finish; a malformed or refused reply ends it at once, a truncated or rejected one the third time. Every reply enters the trace, as one that changed a file exactly when the written count grew. |
| `AgenticLoop.FitIff` | skyn3t/adapters/llm.py:1401-1423 | A turn can be made of exactly the messages with the role of the assistant or none, no refusal, text or no content, a list of calls or none, and a finish reason that is absent, length, stop without calls, or tool_calls with some. |
| `AgenticLoop.Session.CheckDoom` | skyn3t/adapters/llm.py:4507-4522 | Fires exactly on three identical calls in a row: first a warning, then another model exactly when failover may offer a fresh one, and otherwise the end. |
| `AgenticLoop.Session.CheckChurn` | skyn3t/adapters/llm.py:4523-4559 | Fires exactly when one path has half of the last sixteen changes; a path warned before ends the session, another is warned. |
| `AgenticLoop.Session.CheckAuxiliary` | skyn3t/adapters/llm.py:4560-4590 | Fires exactly at six unplanned helpers while planned files are missing; the second time without new coverage ends the session. |
| `AgenticLoop.Session.CheckCoverage` | skyn3t/adapters/llm.py:4591-4649 | Fires exactly when the writes without new coverage reach both six and the number of missing files; the second time without new coverage ends the session. |
| `AgenticLoop.Session.CheckConverged` | skyn3t/adapters/llm.py:4650-4700 | With the plan complete an unfinished session is nudged once, and then finished exactly when its state is acceptable. |
| `AgenticLoop.Session.CheckEmpty` | skyn3t/adapters/llm.py:4701-4712 | The second empty reply in a row ends the session. |
| `AgenticLoop.Session.CheckFinish` | skyn3t/adapters/llm.py:4713-4772 | A finished session ends exactly when its state is acceptable; a finish with planned files missing is denied once, then it is an error. |
| `AgenticLoop.Session.JudgeProgress` | skyn3t/adapters/llm.py:4507-4649 | Of the guards against going round in circles exactly the first that applies acts: it warns and clears what it counted, switches the model, or ends the session. |
| `AgenticLoop.Session.Judge` | skyn3t/adapters/llm.py:4507-4772 | After a turn the session goes on, fails, or ends finished in an acceptable state, and exactly when: a finish that was asked for is granted if and only if the state is acceptable; otherwise the first guard that applies decides, by what was warned of before; the trace gains at most a switch. |
| `AgenticLoop.Session.Step` | skyn3t/adapters/llm.py:4150-4772 | What a pass adds to the trace, exactly: the requests to the tried models that are not exhausted, each with the edited copy of the history as it then was, the reply if one came in, with whether files changed, and at most one switch; nothing after the progress window, and only a switch when the turns of the model are used up. The project is what the reply leaves. A finish that the reply asks for is granted exactly in an acceptable state. It ends the session only finished in an acceptable state, without a usable reply, or by a guard that had a cause in an earlier turn. |
| `AgenticLoop.Session.Run` | skyn3t/adapters/llm.py:4148-4784 | A run of any length. For every pass made it is stated what it added to the trace, so that a reply is in it exactly when the pass brought one, and what it left in the project, so that the files are what the calls of the accepted batches make of them one after the other; passes follow one another as long as replies come in or a model is given up, and a run ends early only by recording an error or finished, for a reason: asked to finish or with a complete plan, too late, without a usable reply, or by a guard, which takes an earlier reply. Between two changed-file turns at most 4 + (S+1)M replies come in, for S switches there and M the smaller turn limit, and so for any run of replies without a change, for the switches of the session; models given up are distinct, never asked again, and at most the configured number; every request was well-formed and the edited copy of the history at some earlier time. It reports success exactly when it finished and wrote, in which case every planned path has real content and verification was off, found nothing, or had denied twice. |
| `CodeImprover.RollbackIff` | skyn3t/agents/code_improver.py:635-650 | The snapshot is restored if and only if, in the tree left behind, no file of it has become a directory or alias and nothing but directories and new tracked files lies above it. |
| `CodeImprover.DirectoryBlocksRollback` | skyn3t/agents/code_improver.py:635-650 | A concrete session that cannot be rolled back: it turns a tracked file into a directory. |
| `CodeImprover.Checkout.Snapshot` | skyn3t/agents/code_improver.py:619-633 | The snapshot has the text of exactly the visible, small, decodable files. |
| `CodeImprover.TrackedIff` | skyn3t/agents/code_improver.py:595-633 | A snapshot includes exactly the files of at most a million bytes of text with no name on their path that agrees but for its case with an ignored one, a build directory, venv or .cache. |
| `CodeImprover.Checkout.RestoreSnapshot` | skyn3t/agents/code_improver.py:635-650 | Every file of the snapshot that can be reached holds its text again, in the mode it was left with, or is left alone when it reads as it did; any other is as the session left it; so the snapshot equals the earlier one exactly when all can be reached. New files that a snapshot would include are gone, and nothing else is touched but parents. |
| `CodeImprover.RollbackBytes` | skyn3t/agents/code_improver.py:635-650 | The bytes of a file come back exactly when the session left them, or left another text and the bytes had no CR; its mode is the one it was left with, or the default for a new file. |
| `CodeImprover.RollbackLosesCr` | skyn3t/agents/code_improver.py:635-650 | A concrete rollback that turns a CRLF into an LF. |
| `CodeImprover.Checkout.PruneNewPaths` | skyn3t/agents/code_improver.py:672-722 | Deepest paths first, exactly the untrusted new files go, and with them exactly the directories in which nothing else is left; what the loop does not look at stays, and keeps its directories. |
| `SessionPruning.NothingUntrusted` | skyn3t/agents/code_improver.py:672-722 | Afterwards every file looked at was there before or is trusted, and every directory holds something that stays. |
| `SessionPruning.GoneIff` | skyn3t/agents/code_improver.py:672-722 | A file goes exactly when it is looked at, new and not trusted; an alias also has to lead to a file. |
| `SessionPruning.DirectoryStaysIff` | skyn3t/agents/code_improver.py:672-722 | A directory stays exactly when it is the root, not looked at, or holds something other than directories that are looked at. |
| `SessionPruning.PrunedStays` | skyn3t/agents/code_improver.py:672-722 | Pruning again would change nothing. |
| `CodeImprover.Checkout.AcceptOrUnwind` | skyn3t/agents/code_improver.py:872-928 | Accepted changes stay as the session left them, refused ones are undone or deleted, nothing else changes, and the improved files are exactly the accepted changes. |
| `CodeImprover.Checkout.AgenticImprove` | skyn3t/agents/code_improver.py:795-928 | After a successful session no new file is left that is not trusted, and every tracked file has its original text or is listed as improved; all other paths are as the session left them, but for what pruning removes. After a failed one every original file that can be reached has its text back, new ones are gone, and the snapshot equals the earlier one exactly when the tree left behind allows it. |
| `NpmBuildCache.ManifestsAgree` | skyn3t/npm_utils.py:140-172 | Two manifests are equal if and only if the two walks see the same: files and contents, and directories when nothing is skipped. |
| `NpmBuildCache.BuildTreeManifest` | skyn3t/npm_utils.py:140-172 | The walk loop fills the manifest of the tree, and fails exactly when the root is no directory or an alias is met. |
| `NpmBuildCache.ReceiptStandsForBuild` | skyn3t/npm_utils.py:209-275 | Two trees have the same receipt if and only if command, environment, inputs, dependency metadata and the whole output tree, empty directories included, are the same and no directory is named like a configuration file. |
| `NpmBuildCache.ReceiptIff` | skyn3t/npm_utils.py:209-275 | There is a receipt exactly for a finished build of a recognised layout: no alias among inputs and output, dependency metadata in place, a non-empty index.html, or for .next a non-empty BUILD_ID and files under server and static. |
| `NpmBuildCache.ConfigsAre` | skyn3t/npm_utils.py:198-206 | The configuration files are the regular files at the root whose name has .config. in it. |
| `NpmBuildCache.SameBuildIff` | skyn3t/npm_utils.py:209-275 | Two trees have the same build exactly when all files outside Git, node_modules, the output and the runner are the same, and so are the seven dependency files and the whole output. |
| `NpmBuildCache.ConfigDirectoryMisses` | skyn3t/npm_utils.py:209-275 | An empty directory named like a configuration file leaves a tree without a receipt, although nothing that the build reads, depends on or puts out has changed. |
| `NpmBuildCache.CurrentIffSameBuild` | skyn3t/npm_utils.py:360-373 | With the stamp of an earlier build in place the build is current if and only if command and environment are the same and no input, dependency file or output has changed. |
| `NpmBuildCache.Undisturbed` | skyn3t/npm_utils.py:222-238 | Whatever else is written in node_modules, the stamp included, leaves the receipt as it is. |
| `NpmBuildCache.Project.Current` | skyn3t/npm_utils.py:360-373 | A build is reported current exactly when the stamp reads as the receipt that the tree has now. |
| `NpmBuildCache.Project.Invalidate` | skyn3t/npm_utils.py:376-388 | It succeeds exactly when there is no stamp or the stamp can be removed; then there is none, and nothing else has changed. |
| `NpmBuildCache.Project.Publish` | skyn3t/npm_utils.py:402-412 | At every visible moment of writing the stamp, however far the temporary file got, the stamp is absent or the complete receipt of that very tree. |
| `NpmBuildCache.Project.Mark` | skyn3t/npm_utils.py:391-419 | Marking succeeds exactly when a finished build stands and the stamp is no directory; it leaves the stamp of the tree before marking, changes nothing else, and is honest at every step. |
| `ProviderLimits.StepInv` | skyn3t/adapters/provider_limits.py:82-105 | Entering, acquiring, cancelling and leaving keep the counts of every gate true. |
| `ProviderLimits.EnterWaits` | skyn3t/adapters/provider_limits.py:82-99 | A named provider with a positive limit makes the task wait on the gate of its key, which is made with that limit if need be and counts it; without a name or a limit nothing happens. |
| `ProviderLimits.SharesGate` | skyn3t/adapters/provider_limits.py:82-95 | Two users share a gate exactly when they name one provider on one event loop, in any case and with any blanks around. |
| `ProviderLimits.AdmittedIff` | skyn3t/adapters/provider_limits.py:98-100 | A waiting task is let in exactly while the gate has fewer holders than its limit. |
| `ProviderLimits.LeavesAlone` | skyn3t/adapters/provider_limits.py:99-105 | A task can leave at any time, holding or waiting, and no other gate is touched. |
| `ProviderLimits.AdmissionInvariant` | skyn3t/adapters/provider_limits.py:82-105 | At every moment all users of a loop and provider share one gate; its count is their number, holders stay within its limit, and its entry exists exactly while it has a user. |
| `ProviderLimits.NothingLeaks` | skyn3t/adapters/provider_limits.py:99-105 | When no task is inside, the map is empty and every permit is free. |
| `ProviderLimits.LimitIsTheMakers` | skyn3t/adapters/provider_limits.py:93-97 | A gate keeps the limit its first user brought. |
| `ModelSlots.ParseSlots` | skyn3t/adapters/model_slot.py:150-173 | The loop collects the slots of all tokens that are not blank. |
| `ModelSlots.NormalProviderIff` | skyn3t/adapters/model_slot.py:111-120 | A name stands for a CLI provider in any case, with or without its suffix, after a hyphen or an underscore; for openrouter or stub in any case; and for nothing else. |
| `ModelSlots.ParseSlotReads` | skyn3t/adapters/model_slot.py:123-147 | What a text is parsed to: the effort after the last @, if it names one and something is before it, and then the provider before the first colon with the model after it, or the whole as a model. |
| `ModelSlots.EmptyIffBlank` | skyn3t/adapters/model_slot.py:123-147 | Only a blank text is parsed to the empty slot; an effort without a route is taken for a model. |
| `ModelSlots.SlotRoundTrip` | skyn3t/adapters/model_slot.py:76-147 | Printing a parsed slot and parsing it again gives the same slot, for every text. |
| `ModelSlots.ListRoundTrip` | skyn3t/adapters/model_slot.py:150-173 | Joining the addresses of a parsed list with commas and parsing them gives the same list. |

## Left out

- HTTP, subprocesses, Docker, npm and browser execution, prompt texts, router catalogues and cost estimates: they are arbitrary outcomes, arbitrary lists or inputs.
- I/O faults, races with other writers, hard links, and reads in chunks: a file is read and written at once, and every lock is obtained. The ledger fails open otherwise.
- SHA-256: digests stand for the bytes they are taken of.
- Floats, JSON rounding and the wall clock: reals, and a clock that moves on at least as far as each sleep.
- Unicode: case folding, lower case and whitespace are those of ASCII. File systems are case sensitive with `/` as separator.
- `CodeImprover.Checkout.Snapshot`: visits all paths and filters those below a pruned directory, where the source does not descend; an alias is never followed, so a snapshot has no text for one, and writing onto one is not modelled.
- `CodeImprover.Checkout.RestoreSnapshot`: does not write through aliases, where the source writes to their targets.
- `CodeImprover.Checkout.AgenticImprove`: does not model the candidate archive beside it; the acceptance tests on a file, and the rules by which a new path is trusted, are arbitrary predicates.
- `CodeImprover.Checkout.PruneNewPaths`: whether an alias leads to a file is an arbitrary predicate that the pruning does not change.
- `WorkspaceTools.Workspace.EditFile`: does not model file modes, files that are not UTF-8, or a directory at or file above the path, where the source reports an error or raises.
- `WorkspaceTools.Workspace.RunTool`: read_file and list_files return an arbitrary text; their line ranges are not modelled.
- `AgenticLoop.Session.RunBatch`: rewrites the arguments of a call in the conversation as a value, so sharing of one dictionary between history and batch is not captured.
- `AgenticLoop.Session.Ask`: takes the models that the retry engine tries as arbitrary; the engine itself is `ResilientCall`.
- `AgenticLoop.Session.Run`: takes the replies of a run as a finite list of any length; the progress window is an arbitrary flag in each pass, and usage accounting, activity reports and the collected prose are left out. Sessions that keep changing files have no bound on turns, by design.
- `ToolCalls.CompactWriteCall`: takes the reports of the tools as data instead of text, before secrets are masked in them.
- `ToolCalls.ValidateBatch`: does not model the error texts.
- `ResilientCall.Client.ResilientCall`: takes the class of an error and the parsed server minimum as inputs, and treats the free-only filter and the router as one arbitrary list.
- `ProcessSweep.SweepComplete`: assumes that a process that was already listed adopts no orphan that the loop has missed, and that process identities are not reused; the process-group kill and the ownership check before the sweep are left out.
- `LedgerProtocol.NoLostUpdates`: the day does not change inside a transaction and never goes back.
- `TreeSnapshot.TakeSnapshot`: does not model unreadable or unstable files, and orders the entries of a directory by folded name.
- `NpmBuildCache.Project.Mark`: no write fails, and `package.json` and configuration texts are judged by one arbitrary function.
- `NpmBuildCache.BuildTreeManifest`: visits all paths and filters those below a skipped directory, where the source does not descend.
- `ProviderLimits.AdmissionInvariant`: steps are atomic within their event loop, and the order in which a semaphore wakes its waiters is arbitrary.
- `ModelSlots.ParseSlots`: takes one text; an iterable of texts is the concatenation of their tokens.
- Backend selection, stall classification, reasoning timeout floors, receipt body recognition, plan path merging, weakened-test detection: one-branch facts, or kept as uninterpreted predicates.
- Worktree creation, ownership markers, staging directories, preview synchronisation and reaping: no property across operations.
