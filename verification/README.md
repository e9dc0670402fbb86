# Deployment, gating and release tooling: a verified model

This project models the protocols and algorithms behind the repository's release tooling and proves what they promise.
Concurrent parts are step relations with an adversarial environment; loops and objects that change state are methods and
classes proved against specification functions; everything else is functions and lemmas. `dafny verify dfyconfig.toml`
checks the whole project.

| module | models |
|---|---|
| Obligations, Inventory | the importers of interruption obligations and the double collect that reads them |
| SwitchRun, Retirement | the checkout switch that owes a start, and the retirement of leftovers under PID reuse |
| LineScan, PageScan, PageReports, ReversePager, PagerFaults | the reverse tail-window page reader, its cursors, and files outside its promise |
| SignalLauncher | the signal-domain launcher's processes |
| ShellQuote, CloudUpload, CloudTransfer, CloudRun | quoting, chunked upload, record paging and the bounded fallback of cloud checks |
| CheckEnvironment, EnvironmentKey, TreeWalk, GateCache | the canonical check environment and its key, the walk over installed files, and the on-disk cache |
| StoreNames, StoreLines, StoreMerge, StoreCutover | the transcript store cutover |
| Crc32, CrcDivision, PngChunk, PixelRows | placeholder images |
| IsoWeek, TileJudge, FitRadii, ImportClosure, SandboxJournal, Markup | smaller cores |
| Common, Iteration, Ordering | sequences, iteration and stable sorting shared by the others |

## What does not hold as promised

Each of these keeps the code as it is and states exactly when the promise holds.

- An accepted inventory read can miss a record. The claims are listed first and the journal is looked at last, in both
  collects. If an import claims the journal inside the first collect, returns the record, and another import claims it
  again inside the second, both collects look alike and the record was in neither place when it was read
  (`Inventory.AheadMissed`). With claims in at most one of the two collects the read is complete (`Inventory.CompleteIff`).
- `isoWeek` reads the years 0 to 99 as 1900 to 1999, as `Date.UTC` does (`IsoWeek.IsoWeekIff`).
- `platformScope` treats a matching empty prefix as no match, which hides a later one (`ImportClosure.AnswerIff`). The
  command line removes empty prefixes before the call.
- A cache write over 1 MiB returns silently and leaves an earlier value readable (`GateCache.Cache.WriteThenRead`,
  `GateCache.Cache.OlderValueRead`).
- The upload's pattern skips line terminators (`CloudUpload.ChunksMakeBundleIff`, `CloudUpload.LineBreakLost`); a base64
  bundle has none.
- The reader's scan cap loses the carried tail of a line: a one-line file of which no page reports the record is
  `ReversePager.TornLineLost`, and `ReversePager.CappedExactIff` says by sizes and newlines alone when a capped page is
  exact. A file within the ceiling is always read whole (`ReversePager.WalkCursors`).
- The reader's line loop does not end by itself over a file that opens with a newline
  (`ReversePager.LineLoopEndsIff`): the page repeats the lines up to the last newline until it is full or meets an old
  record (`PagerFaults.RepeatsUntilStopped`), so it may report a line twice (`PagerFaults.LineReportedTwice`) or never end
  (`PagerFaults.NewlineNeverEnds`).
- A stretch without a newline that is longer than the line limit is dropped (`ReversePager.CutWindow`), and its line with
  it (`PagerFaults.LongLineLost`).
- Names that compare equal under the locale make the environment key depend on order (`EnvironmentKey.TieChangesKey`,
  `EnvironmentKey.SoftHyphenTies`).
- Two account homes can share a label (`StoreNames.LabelsCanMeet`), and a file set aside under a taken name replaces what is
  there (`StoreMerge.SetAsideKeepsIff`): three roots, two of them with one label, lose a file
  (`StoreCutover.SharedLabelRootsLose`).
- A directory that appears at a released sandbox path can be deleted at exit: because the path was recorded twice
  (`SandboxJournal.RecordedTwiceLoses`), or because a directory above it is recorded and goes with all it contains
  (`SandboxJournal.NestedLoses`). It survives exactly when no other unreleased record names the path or a directory above
  it (`SandboxJournal.ReleasedSurvivesIff`).

## What the environment is assumed to do

- Renames are atomic; file identities, claim names and directory names of obligations never recur.
- A PID's start identity is never given to another incarnation; a pidfd reaches the incarnation it was opened on or nobody;
  a cgroup directory that is gone holds no process.
- A launcher that is killed, or kills and reaps its child, leaves no living process in its namespace.
- Hashes are injective. A remote shell runs a submitted command at most once and records it under its own text.
- `SwitchRun.Switch.Run` is given a moment after which the unit is active and nothing raises, so that its unbounded recovery
  loop ends; every run that ends is covered, since what the service manager says after the end does not matter.
- `ReversePager.WalkCursors` needs a positive limit and chunk size, lines within the line limit and a file that does not
  start with a newline.

## Model

| member | source | states |
|---|---|---|
| Obligations.TakeKeeps | src/lib/runtime/interruptionObligations.ts:395-427 | No importer step (append, claim by rename, takeover, publication, return, deletion of a handled claim) loses a record that is not withdrawn |
| Obligations.TakeValid | src/lib/runtime/interruptionObligations.ts:340-422 | Every record present anywhere is in the directory, in the journal, or in a claim that has not dealt with it yet; every step keeps this |
| Obligations.IntoClaim | src/lib/runtime/interruptionObligations.ts:395-427 | A record refused into an empty journal is claimed with it, and claimed again after its importer died; the claim cannot go before the record is dealt with |
| Obligations.OutOfClaim | src/lib/runtime/interruptionObligations.ts:395-427 | From its claim a record is published into the directory or returned to the journal, after which the claim may go; one that was removed is not published again |
| Obligations.InAndOut | src/lib/runtime/interruptionObligations.ts:340-422 | A record written into the directory stays until it was withdrawn and is then not written again |
| Inventory.ClaimThroughout | scripts/deploy-checkout.py:371-383 | A claim listed at two moments held the same file at every moment between them |
| Inventory.JournalThroughout | scripts/deploy-checkout.py:363-368 | A journal seen with one identity at two moments was the same file, unchanged, between them |
| Inventory.StillSecond | scripts/deploy-checkout.py:411-440 | Case of completeness: no import claims the journal during the second collect |
| Inventory.StillFirst | scripts/deploy-checkout.py:411-440 | Case of completeness: no import claims the journal during the first collect |
| Inventory.AcceptedComplete | scripts/deploy-checkout.py:411-440 | For every interleaving in which imports claim the journal during at most one of the two collects, an accepted read holds every record present when the first collect finished, or it was withdrawn |
| Inventory.AheadMissed | scripts/deploy-checkout.py:371-383 | A run in which the journal is claimed in both collects, the collects agree, and a record present all along is not read |
| Inventory.CompleteIff | scripts/deploy-checkout.py:411-440 | Accepted reads are complete in every run if and only if imports may not claim the journal during both collects |
| Inventory.ReadInventory | scripts/deploy-checkout.py:430-440 | Five rounds at most, over any run of the importers: the first whose two collects agree is taken, with exactly what its read met; it holds every record present when its first collect finished, or that was withdrawn, unless an import claimed the journal in both collects; a read without complaints is an accepted one |
| SwitchRun.CheckedMeans | scripts/deploy-checkout.py:1247-1252 | What a discharged start stands for: somewhere no job was queued and then the unit was active, and no stop, start or other look at the unit follows |
| SwitchRun.Switch.Launch | scripts/deploy-checkout.py:1235-1258 | Each start command is one attempt; the batch ends at the first look since its beginning that saw no job and then an active unit, started exactly then, and otherwise after all its attempts |
| SwitchRun.Switch.Attempt | scripts/deploy-checkout.py:1240-1252 | A refused start is not waited for; any other is waited for until a look at the unit or until its time is up, and is seen active exactly by the last look |
| SwitchRun.Switch.RecoverStart | scripts/deploy-checkout.py:1260-1273 | A unit found active without a job is left alone; any other is started, in one bounded batch; started is what the last look says |
| SwitchRun.Switch.StopUnit | scripts/deploy-checkout.py:1303-1325 | One stop; a refused one is not waited for; the wait ends at the first sight of the unit stopped with no job queued, or when its time is up; only then is the release awaited, survivors read exactly if it failed, and signals sent exactly when there were some and each was proven; the outcome is what the last of these came to |
| SwitchRun.Switch.Relocate | scripts/deploy-checkout.py:1286-1340 | Whatever the stop came to, which is told as its events say, once it was submitted a start was, after it; the stop comes right after the placement was read, and not at all if that raised; it raises then or when the unit was not seen active |
| SwitchRun.Switch.SampleServing | scripts/deploy-checkout.py:246-260 | What a sample says is the last that was seen serving; a ready look ends it at once, and without one it ends only when its time is up, counting looks and recoveries that raised; after a stop each look follows a recovery of its own, with one start at most |
| SwitchRun.Switch.Observe | scripts/deploy-checkout.py:209-280 | It ends by an exception exactly if preflight, a pause, or the switch by no ordinary exception raised; a result quotes, by the log, as many rounds as asked for, the outcomes of the last, what was last seen serving since, and the last inventory, and its verdict is fail, needs_decision or pass exactly as they call for |
| SwitchRun.PassStands | scripts/deploy-checkout.py:170-202 | After the last recovery a pass is still earned exactly if it was, no batch failed and no start was submitted |
| SwitchRun.Switch.Run | scripts/deploy-checkout.py:160-206 | The log holds what the environment answered at each moment. However the run ends, the last the log says of the unit after a submitted stop is that it was active with no queued job; every start follows the one stop. The unit is stopped exactly if nothing before the stop raised; the run gives no result exactly if preflight, a pause, or the switch by no ordinary exception raised; every round but the first comes right after a pause. A result quotes the last round of samples and the last inventory; it fails exactly if nothing was seen serving, a role has another sha or is unhealthy, a check failed, an outcome is lost, or a start or failed recovery came after the inventory was read; it needs a decision exactly if not so and an outcome is unknown or the inventory not whole; it passes exactly if a pass was earned by the log and nothing took it back |
| Retirement.WithinIff | scripts/deploy-checkout.py:613-614 | Inside a group is the group itself and every path that goes on, after a slash, from it without its trailing slashes |
| Retirement.Proof | scripts/deploy-checkout.py:1179-1197 | Proven only for an admitted process whose parents, each a row of the process table at the moment it was read, met a captured member before any agent, and always for an admitted one whose parents lead to a captured member throughout; not proven only because it is not admitted, met an agent first, or ran out of parents; an unreadable parent was gone |
| Retirement.Survivors | scripts/deploy-checkout.py:1148-1177 | Each survivor reported was in the old cgroup, and is proven only with such a chain read since, starting at its own identity, and when it was still the same after the chain was read; nobody who sat in a listed directory throughout is missed, and whoever of them had parents leading to a captured member throughout is proven |
| Retirement.PidfdSignal | scripts/deploy-checkout.py:518-538 | Under any exits and PID reuse, a sent signal reached the very incarnation that, since the call began, was read as admitted and no agent and then read inside the old cgroup; none is sent only if the process did not stay, stay inside and keep its proof throughout |
| Retirement.Retire | scripts/deploy-checkout.py:1208-1233 | Every signal reached a proven survivor in that order, terminations first and kills after; every proven survivor that stays, inside, admitted and no agent, is both terminated and killed; kills come only after every terminated process left or, poll after poll as often as may be, somebody was still inside; the answer names exactly the signals sent |
| Retirement.OwnerOf | scripts/deploy-checkout.py:947-958 | The owner found is that of the first owned row on the parent chain as it was read; none only if the chain ended or a parent was gone; where parents lead to one of the serving generation throughout, with no agent before it, it is found |
| Retirement.Generation | scripts/deploy-checkout.py:1072-1115 | Captured members were read as no agents, and as recorded roots or as Viewer-group helpers whose parents, read afterwards, reached a serving process before any agent; nobody who sits in a listed directory throughout is missed if it is a root, or is no agent, stays in the Viewer's group and has parents that lead throughout to a serving process with no agent before it |
| Retirement.CapturedIsOfGeneration | scripts/deploy-checkout.py:1106-1114 | A captured member still there later was, as the same incarnation, at the head of the chain that captured it, although the code reads its PID twice |
| Retirement.ProvenIsLeftover | scripts/deploy-checkout.py:1148-1197 | A proven survivor's parents, none of them an agent, led to a member of the serving generation |
| Retirement.RetireGeneration | scripts/deploy-checkout.py:1286-1340 | From capture to the last signal: no staying root or helper is left uncaptured and no staying process unreported; signals are sent only if every survivor was proven, each reached, in order, a leftover of the serving generation, and then every survivor that stays is terminated and, after its time to leave, killed |
| LineScan.TailLinesIsReverseSplit | scripts/conversation-messages-bench.ts:165-196 | Walking lines from the end of a file gives the forward split into whole lines, reversed |
| ReversePager.PageReader.Seen | scripts/conversation-messages-bench.ts:121-130 | The 8-entry duplicate window: a message is a twin of an earlier one with the same key, another representation and stamps within two seconds or missing |
| ReversePager.PageReader.ConsumeLine | scripts/conversation-messages-bench.ts:132-147 | One line advances the page exactly as the plain scan of its parts, newest first, does |
| ReversePager.ProbeLine | scripts/conversation-messages-bench.ts:151-160 | The mid-line probe finds the whole line at the cursor |
| ReversePager.LineStepAdvancesIff | scripts/conversation-messages-bench.ts:186-195 | The line loop moves back at every position except just after a newline that opens the file |
| ReversePager.LineLoopEndsIff | scripts/conversation-messages-bench.ts:186-195 | Over the first lines of a file the loop comes to an end by itself if and only if the file does not open with a newline |
| PagerFaults.RepeatsUntilStopped | scripts/conversation-messages-bench.ts:186-195 | Over a file that opens with a newline the page goes on as a scan of its lines and then, endlessly, of those up to the last newline; it stops if and only if that scan does |
| PagerFaults.NewlineNeverEnds | scripts/conversation-messages-bench.ts:186-195 | A file that is one newline, over which no page ever stops |
| PagerFaults.LineReportedTwice | scripts/conversation-messages-bench.ts:186-195 | A file of one line between newlines, whose record a page reports twice |
| PagerFaults.LongLineLost | scripts/conversation-messages-bench.ts:177-179 | The line that a dropped window ends is not among the lines below it |
| ReversePager.ConsumeWindow | scripts/conversation-messages-bench.ts:185-195 | The complete lines of a window are consumed exactly as the plain scan consumes them |
| ReversePager.CutWindow | scripts/conversation-messages-bench.ts:174-183 | A window is cut at its first newline into whole lines and the carried head of an earlier line; what would be carried is dropped exactly when it holds no newline and is over the line limit, which no file with lines within the limit has |
| ReversePager.ReadChunk | scripts/conversation-messages-bench.ts:167-197 | One chunk step keeps the page equal to the plain scan down to the carry |
| ReversePager.ReadPageBackwards | scripts/conversation-messages-bench.ts:107-199 | A page is capped if and only if, by sizes alone, its chunks reach the scan ceiling above the start of the file, and the lines above that point leave it open; capped, it reports those lines and goes on at that point; otherwise it is the plain scan from its cursor, stopped at its limit or at `since`; no page exceeds its limit, and one that has more without being capped has exactly as many records; only files larger than the ceiling are capped |
| ReversePager.PageContinues | scripts/conversation-messages-bench.ts:136-147 | What a full page leaves is exactly what its cursor resumes with, with the same window |
| ReversePager.CappedContinues | scripts/conversation-messages-bench.ts:168 | A capped page that tore no line also leaves exactly what its cursor resumes with |
| ReversePager.CappedExactIff | scripts/conversation-messages-bench.ts:168-184 | From a line boundary, a capped page loses nothing, for every query and every reading of lines, if and only if the ceiling falls where no line is torn |
| ReversePager.TornLineLost | scripts/conversation-messages-bench.ts:168 | A file of one line, read byte by byte, whose only record no page reports |
| ReversePager.WalkIsWholeScan | scripts/conversation-messages-bench.ts:107-199 | Pages that tear no line are together one unlimited scan of what was left |
| ReversePager.SmallFileNeverTorn | scripts/conversation-messages-bench.ts:168 | No page tears a line of a file within the ceiling |
| ReversePager.WalkCursors | scripts/conversation-messages-bench.ts:107-199 | Pages followed by cursor are together one unlimited newest-first scan of whole lines, for every file within the ceiling and for any file of which no page tears a line: in order, exactly the records of the kinds and roles asked for, down to the first that is too old, without a twin among the eight latest messages; cursors are strictly earlier each time |
| PageScan.PageSplits | scripts/conversation-messages-bench.ts:132-147 | A limited scan of a list is a prefix of the unlimited one, and the rest is what its cursor starts with |
| PageScan.RemainingResume | scripts/conversation-messages-bench.ts:139-140 | The cursor of a full page names exactly the first item the page did not take, strictly before the page's own cursor |
| PageScan.UnlimitedDescends | scripts/conversation-messages-bench.ts:132-147 | The records of a scan descend strictly in offset and part |
| PageScan.RunLimited | scripts/conversation-messages-bench.ts:139-140 | A limited scan keeps within its limit and stops at it only with exactly as many records |
| PageReports.UnlimitedReports | scripts/conversation-messages-bench.ts:121-147 | Over places in the list alone: an unlimited scan reports, in order, exactly the records before the first too old one whose kind and role are asked for and of which no twin (same key, other representation, stamps missing or within two seconds) is among the eight latest messages before it, those it came with counted as the oldest |
| PageReports.OtherRoleUnreported | scripts/conversation-messages-bench.ts:142 | A message of a role that was not asked for is not reported |
| SignalLauncher.TakeKeeps | bin/agent-signal-sandbox.py:135-492 | Every step of the parent, the scoped launcher, the namespace, the Viewer or a killer keeps the protocol's invariant |
| SignalLauncher.EveryRun | bin/agent-signal-sandbox.py:135-492 | The invariant holds after every sequence of steps |
| SignalLauncher.AtMostOnce | bin/agent-signal-sandbox.py:189-218 | The engine is executed at most once in every run |
| SignalLauncher.ExecutesFirst | bin/agent-signal-sandbox.py:160-166 | Whoever is about to execute the engine is the first to |
| SignalLauncher.ParentOnlyUnmarked | bin/agent-signal-sandbox.py:293-343 | The waiting parent executes it only when its child and the namespace ended and the entry mark was never made |
| SignalLauncher.NoFallbackAfterReceipt | bin/agent-signal-sandbox.py:346-367 | After a published receipt no continuation of the run runs the engine unprotected |
| SignalLauncher.GuardedNeedsAck | bin/agent-signal-sandbox.py:189-218 | A guarded launch with a receipt executes nothing before the Viewer acknowledged |
| SignalLauncher.RanUnlessExcused | bin/agent-signal-sandbox.py:135-473 | When everyone has ended, the engine ran exactly once, unless one of the named steps was taken: a stop of the waiting parent, a setup failure while stopping, a failure or death after the receipt, a failed or unannounceable fallback, or a death past the parent's reach before anyone ran |
| SignalLauncher.StillRuns | bin/agent-signal-sandbox.py:135-473 | From every reachable state in which nobody ran the engine and somebody can, some continuation without an excusing step runs it: the waiting parent or the scoped launcher if its fallback is under way, and otherwise, a published receipt included, the process inside the namespace |
| SignalLauncher.CanRunIff | bin/agent-signal-sandbox.py:135-473 | Where nobody ran the engine yet, some continuation runs it if and only if somebody is left to |
| SignalLauncher.UnexcusedCanRun | bin/agent-signal-sandbox.py:135-473 | Without an excusing step somebody is left to, unless the launch has no fallback to take or was told to stop and has lost its namespace |
| SignalLauncher.FallsBack | bin/agent-signal-sandbox.py:230-343 | Every refusal, setup failure and death before the entry can be followed by the engine run, once, by whoever falls back |
| SignalLauncher.ProtectedLaunch | bin/agent-signal-sandbox.py:376-473 | For all options, a whole launch inside its boundary: the engine is run there, once, and everybody ends |
| SignalLauncher.StopIsHeeded | bin/agent-signal-sandbox.py:315-341 | A waiting parent told to stop, or a scoped launcher told so while it sets up, never runs the engine |
| SignalLauncher.ReceiptTells | bin/agent-signal-sandbox.py:193-197 | A receipt that was asked for tells whether the engine that ran is inside the boundary |
| SignalLauncher.InnerNeedsAck | bin/agent-signal-sandbox.py:160-166 | Inside the boundary the engine runs only after an acknowledgement, guarded or not |
| ShellQuote.QuoteReads | scripts/cloud-checks.ts:54 | A POSIX shell (section 2.2.2 of the POSIX.1-2017 Shell Command Language) reads a quoted value back as exactly that value, whatever follows |
| ShellQuote.QuoteInjective | scripts/cloud-checks.ts:54 | Different values have different quotations |
| CloudUpload.ChunksSend | scripts/cloud-checks.ts:180 | The chunks, each of 1 to 32768 characters, make up the bundle without its line terminators |
| CloudUpload.ChunksMakeBundleIff | scripts/cloud-checks.ts:180 | The chunks concatenate to the bundle if and only if it holds no line terminator |
| CloudUpload.LineBreakLost | scripts/cloud-checks.ts:180 | A bundle of two lines that arrives as one |
| CloudUpload.RecordsApart | scripts/cloud-checks.ts:154-156 | No record can match two chunks' commands, plain or wrapped in either shell with either flag |
| CloudUpload.CommandReads | scripts/cloud-checks.ts:185 | The shell tokenizes an upload command as meant for any directory and chunk, the numbering comment leaving nothing |
| CloudTransfer.RunCommand | scripts/cloud-checks.ts:185 | Running an upload command replaces (first) or extends (later) the remote file by exactly its chunk |
| CloudTransfer.OwnRecord | scripts/cloud-checks.ts:189-195 | A successful record matched to a chunk shows that this very chunk has run |
| CloudTransfer.Await | scripts/cloud-checks.ts:187-200 | A chunk is done exactly by its first terminal record, completed with exit code 0 and a turn; any other such record refuses it; every event is looked at, and it is given up only at an abort, at the deadline or when records cannot be listed |
| CloudTransfer.UploadBundle | scripts/cloud-checks.ts:179-202 | After a successful upload the remote file equals the bundle if and only if it has no line terminator, every chunk went by its own first record, and the turn told is that of the first chunk; an upload with nothing to send is refused; it is otherwise refused by a record, or given up at an abort, at the deadline or when records cannot be listed |
| CloudRun.CommandVerdict | scripts/cloud-checks.ts:207-219 | The first decisive record of the pages received within the record limit is what is answered, and nothing is asked after it; no answer only when the last page was read; a decisive record past the limit raises; the walk goes on only from a page with a cursor that is new, and raises exactly what its last call threw, or a plain error at the first page that is none, has too many records, repeats a cursor or is one before too many |
| CloudRun.ReadTurn | scripts/cloud-checks.ts:138-153 | A turn that a received page lists is found, as first listed, and nothing is asked after it; none is found only when the last page was read; the walk goes on only from a page with a new cursor, and raises exactly what its last call threw or where it gives up |
| CloudRun.Recover | scripts/cloud-checks.ts:279-299 | Handling an error never makes a verdict: it gives the category of the failure, but an outage while the turn may be running connects again and, if the turn is known, interrupts it, and what fails there counts if it is an account refusal or no known failure |
| CloudRun.Observe | scripts/cloud-checks.ts:254-278 | What the pages received decide is the outcome, a decisive record past the limit raises, and a verdict comes from nothing else; a turn seen to end is asked about no more, its records are looked through once more, and without one it comes to what its end means; any other is stopped and given up as limited when it is not seen to end |
| CloudRun.Watch | scripts/cloud-checks.ts:254-264 | A timeout is told only after the records and the turns were looked through for every poll and nothing was decided; with no end and no timeout, the caller aborted just then; no poll is begun on an aborted signal or after the turn was seen to end |
| CloudRun.Stop | scripts/cloud-checks.ts:268-273 | The turn is asked to stop first, an error of that ends it, and it is given up only after it was looked for twenty times since without being seen to end |
| CloudRun.TransportRun | scripts/cloud-checks.ts:221-301 | Over everything asked and answered in a run, whatever fails around it: the first decisive record of the command in its turn is the result, one past the record limit makes it invalid, and no verdict comes from anything else; every other result, invalid too, has the failure, abort, missing id, broken walk, unsound record or end of the turn it stands for. The first of abort, configuration, connection, thread, placement, upload and revert that fails decides the result before any turn, and with none failing the turn is asked for and the result is what watching it came to, or what the handler makes of an error on the way, knowing whether the turn was asked for, named and seen to end |
| CloudRun.DecisiveStands | scripts/cloud-checks.ts:207-219 | A decisive record that was received never leads to another attempt or to the local run |
| CloudRun.RunCloudChecks | scripts/cloud-checks.ts:18-30 | Over the attempts, local runs and abort readings made: at most two attempts, each explained by its log, and one local run, made exactly after two attempts that were each unavailable or limited and five readings without an abort, and then no attempt received a decisive record; otherwise 75 for an abort, or by the last attempt's log: the code that the first terminal record of the command printed with the job's receipt, 0 to 255, its own exit code, not declined and no failure that claims success; 75 for an account refusal; and 1, so that 0 is answered only for a record that exited with 0 and printed it |
| CheckEnvironment.CheckEnvironment | scripts/gate-cache.ts:111-124 | The loop builds the specified environment |
| CheckEnvironment.GetChecked | scripts/gate-cache.ts:111-124 | Name by name: a value passes exactly for keyed, declared, transport and root names outside publication custody, as it is except for PATH |
| CheckEnvironment.PathChecked | scripts/gate-cache.ts:119-122 | A check's PATH is, in order, exactly the entries that are empty or lead neither to the agent's forge directory, if that is set, nor to a directory of shims |
| CheckEnvironment.ClearTwice | scripts/gate-cache.ts:120-122 | Clearing a cleared PATH changes nothing, with or without the forge directory |
| CheckEnvironment.CheckedTwice | scripts/gate-cache.ts:105-124 | A check environment is its own check environment |
| EnvironmentKey.CheckedInput | scripts/gate-cache.ts:151-157 | The key's inputs are exactly the names and values of the check environment, without roots, bookkeeping, identities, unkeyable names, unkeyed transport names and the forge directory |
| EnvironmentKey.ConfigurationIff | scripts/gate-cache.ts:159-162 | Git configuration files count alike exactly if neither is named, or both are and hold the same bytes |
| EnvironmentKey.CheckedIdentity | scripts/gate-cache.ts:158 | Commit identities are keyed by presence |
| EnvironmentKey.SameKeyIff | scripts/gate-cache.ts:151-164 | Two environments with the same declared list have equal keys if and only if they agree on the names that reach a check, on cleared PATH, identities by presence, configuration bytes and host epoch; order and session variables never matter |
| EnvironmentKey.TieChangesKey | scripts/gate-cache.ts:157 | If two different names compare equal, swapping their order changes the key |
| EnvironmentKey.SoftHyphenTies | scripts/gate-cache.ts:157 | Two names that differ in a soft hyphen: the same bindings in another order have another key |
| Ordering.SortCanonical | scripts/gate-cache.ts:157 | Lists without repeats sort alike if and only if they have the same elements, when different elements never tie |
| GateCache.Cache.Read | scripts/gate-cache.ts:172-180 | Nothing, or the last value stored under the key; something exactly when its file is at most 1 MiB, young enough, intact and valid |
| GateCache.Cache.Remove | scripts/gate-cache.ts:181-183 | Removal only turns reads into misses |
| GateCache.Cache.Write | scripts/gate-cache.ts:184-204 | A write stores the value and leaves at most 256 files and 32 MiB, or stores nothing; it fails exactly where a fault meets it; what it removes is exactly what has no room, as far as it came |
| GateCache.Evict | scripts/gate-cache.ts:189-198 | Exactly the files stay that are among the newest 255, fit 32 MiB together with the new record and everything newer, and are young enough |
| GateCache.OldestFirst | scripts/gate-cache.ts:192-198 | What stays is no older than anything young enough that was removed |
| GateCache.RoomStays | scripts/gate-cache.ts:192-198 | A young file stays if it and all files at least as new are at most 255 and fit 32 MiB together with the new record |
| GateCache.OnlyRoomStays | scripts/gate-cache.ts:192-198 | A file stays only if it is young and, with all newer files, one of at most 255 that fit 32 MiB together with the new record |
| GateCache.Cache.WriteThenRead | scripts/gate-cache.ts:184-188 | A read after a write gives an older, different value exactly when the new one was over 1 MiB and the older one is still readable |
| GateCache.Cache.OlderValueRead | scripts/gate-cache.ts:184-188 | A concrete cache in which a refused oversized write leaves the older value readable |
| TreeWalk.Visit | scripts/gate-cache.ts:19-39 | What a visit hashes is the listing of a view of the node and of what its links lead to, each once; the files of the node and of every real path taken up are hashed, and only those; it is given up only for a fault or a limit that it met |
| TreeWalk.TreeFingerprint | scripts/gate-cache.ts:15-43 | The walk ends on any graph of folders and links; it hashes the listing of a view of the root, with exactly the files that can be reached; it gives up where anything reached cannot be hashed, and otherwise only when the hundred-thousandth entry has another after it or the bytes would pass the limit |
| TreeWalk.SameHashSameView | scripts/gate-cache.ts:15-43 | Two walks that hash the same have seen the same: every name, content, permission and link text, in place, and the same behind every link |
| StoreNames.SuffixedInjective | scripts/cutover-shared-claude-projects.ts:102-106 | A suffixed name tells the original name and the label |
| StoreNames.SuffixedKind | scripts/cutover-shared-claude-projects.ts:102-106 | A suffixed name is never a transcript's or the memory file's |
| StoreNames.LabelsCanMeet | scripts/cutover-shared-claude-projects.ts:104 | Two different account homes can have the same label |
| StoreNames.LabelIs | scripts/cutover-shared-claude-projects.ts:104 | A home named by letters, digits and dashes has its name for a label, and an empty one the label "root" |
| StoreNames.OthersDash | scripts/cutover-shared-claude-projects.ts:104 | A run of other characters is one dash |
| StoreNames.SuffixedShape | scripts/cutover-shared-claude-projects.ts:102-106 | The mark goes before the extension |
| StoreMerge.SharedLabelLoses | scripts/cutover-shared-claude-projects.ts:136-139 | Of three versions of a file, from a first root and two that share a label, the second is nowhere in the store after the third |
| StoreLines.UnionKeeps | scripts/cutover-shared-claude-projects.ts:108-118 | Every non-blank line of either side is a line of the union |
| StoreLines.UnionStays | scripts/cutover-shared-claude-projects.ts:108-118 | The union leaves a file as it is exactly if it has every non-blank line of the other, so a second union changes nothing |
| StoreMerge.SetAsideKeepsIff | scripts/cutover-shared-claude-projects.ts:139 | Setting a file aside keeps everything the folder held if and only if its suffixed name is free or holds the same bytes |
| StoreMerge.MergeFile | scripts/cutover-shared-claude-projects.ts:132-139 | One file entry is moved, dropped as a duplicate, united or set aside, or stops the merge with nothing changed |
| StoreMerge.FileKeeps | scripts/cutover-shared-claude-projects.ts:132-139 | Merging one file entry whose suffixed name is free loses nothing of either side; a merge stops only at a transcript or a folder |
| StoreMerge.MergeTree | scripts/cutover-shared-claude-projects.ts:127-142 | The merge of a folder in any listing order, whatever names are free; when suffixed names are free, every source file is still at home, in the store at its path, or there under its suffixed name, everything in the store is kept, nothing comes from nowhere, and it stops only at a transcript collision or a file where a folder is needed |
| StoreCutover.ScanRoots | scripts/cutover-shared-claude-projects.ts:88-100 | No collision is counted if and only if no transcript path is a file in two roots; collisions and merges are the paths of each root that an earlier one holds, by whether they name a transcript |
| StoreCutover.NothingStops | scripts/cutover-shared-claude-projects.ts:127-142 | After a clean scan, over roots that agree on files and folders, no later root collides with the store |
| StoreCutover.MergeRoots | scripts/cutover-shared-claude-projects.ts:144-156 | From an empty store, the roots merged in turn; with labels of their own and fresh names every file of every merged root is stored, and a clean scan means no merge stops |
| StoreCutover.SharedLabelRootsLose | scripts/cutover-shared-claude-projects.ts:102-156 | Three roots, the last two from homes that share a label: the merge succeeds, and the file of the second is nowhere in the store |
| StoreCutover.Cutover | scripts/cutover-shared-claude-projects.ts:195-238 | Refused exactly on a collision, with nothing touched; otherwise the roots are merged, and with labels of their own and fresh names every file of every root is stored |
| Crc32.Crc32 | scripts/generate-privacy-placeholders.ts:151-160 | The nested loops compute the register fold that `CrcDivision.CrcIsRemainder` reads as the standard's checksum |
| Crc32.BitStepInjective | scripts/generate-privacy-placeholders.ts:155-157 | Each bit step is invertible |
| Crc32.WindowDifference | scripts/generate-privacy-placeholders.ts:151-160 | Registers made equal by at most four bytes differed exactly as those bytes do |
| Crc32.FourByteDamageDetected | scripts/generate-privacy-placeholders.ts:151-160 | Equal-length inputs that differ, but only within four consecutive bytes, never share a CRC |
| CrcDivision.CrcIsRemainder | scripts/generate-privacy-placeholders.ts:151-160 | The standard's definition (section 3.4 of RFC 2083): the message times the 32nd power, its first 32 coefficients flipped, is divided by the generator, by long division over two elements, and the remainder is flipped |
| PngChunk.ReadChunk | scripts/generate-privacy-placeholders.ts:162-169 | Decoding splits a stream into type, data and rest that account for its length |
| PngChunk.ReadChunkIff | scripts/generate-privacy-placeholders.ts:162-169 | A chunk is read off a stream if and only if the stream begins with its encoding, and what follows is the rest |
| PngChunk.ChunkReadsBack | scripts/generate-privacy-placeholders.ts:162-169 | The encoding (sections 3.2 and 3.4 of RFC 2083) decodes to the same type and data, whatever follows |
| PngChunk.DamagedChunkRefused | scripts/generate-privacy-placeholders.ts:162-169 | A chunk damaged within four consecutive bytes of its type and data is not readable |
| PngChunk.StreamReadsBack | scripts/generate-privacy-placeholders.ts:212-220 | A file of chunks reads back as those chunks in order |
| PixelRows.Fill | scripts/generate-privacy-placeholders.ts:174-182 | A fill changes exactly the samples of pixels whose centre the rectangle covers; every filter byte stays 0 |
| PixelRows.Paint | scripts/generate-privacy-placeholders.ts:171-205 | Every pixel shows the last rectangle covering it, or the background, and every row starts with filter byte 0 |
| IsoWeek.FirstThursday | scripts/harness-ledger.ts:82-90 | Week 1 by 4 January is the week of the year's first Thursday |
| IsoWeek.AtMostOneWeek | scripts/harness-ledger.ts:82-90 | A date has at most one ISO week |
| IsoWeek.IsoWeekIff | scripts/harness-ledger.ts:82-90 | The label is the week of section 3.2.2 of ISO 8601:2004 if and only if neither the date nor its week's Thursday falls in the years 0 to 99 |
| IsoWeek.YearOneMislabelled | scripts/harness-ledger.ts:84 | 1 January of the year 1 is labelled as a day of the twentieth century |
| IsoWeek.LabelRange | scripts/harness-ledger.ts:87-88 | Weeks are 1 to 53 and take the year of their Thursday |
| IsoWeek.OneLabelPerWeek | scripts/harness-ledger.ts:82-90 | All seven days from a Monday share one label |
| IsoWeek.ChangesAtMondays | scripts/harness-ledger.ts:82-90 | The label changes from one day to the next exactly at Mondays |
| IsoWeek.LongYearIff | scripts/harness-ledger.ts:82-90 | A year has 53 weeks exactly when it starts on a Thursday, or on a Wednesday in a leap year |
| TileJudge.TilesPartition | scripts/capture-readme-media.ts:777-793 | For any tile size, counts sum to width times height and sums to the sum of the map |
| TileJudge.TallyMeans | scripts/capture-readme-media.ts:777-793 | Comparing with a rounded running worst still ends at the largest rounded mean, at a tile that has it |
| TileJudge.RoundTwice | scripts/capture-readme-media.ts:588 | Rounding to thousandths keeps the order against an already rounded value |
| TileJudge.Judge | scripts/capture-readme-media.ts:771-801 | Refused exactly for a map of another size; `ok` if and only if there are tiles, each exact mean is below the limit plus 0.0005, and the rounded changed share is within its limit |
| FitRadii.FitsIff | scripts/capture-readme-media.ts:591-596 | A factor makes the radii fit their sides (section 4.5 of CSS Backgrounds and Borders Level 3) if and only if it does not exceed the code's |
| FitRadii.FittedFits | scripts/capture-readme-media.ts:591-596 | The fitted radii never overlap on a side; radii that fit already are left alone |
| ImportClosure.Follow | scripts/ci-platform-scope.ts:100-108 | Every in-root target of a file is visited, queued or, being no file, recorded; nothing visited is queued again |
| ImportClosure.ExecutedPaths | scripts/ci-platform-scope.ts:69-112 | The worklist ends on any import graph and returns exactly the least set holding the entries and closed under in-root targets |
| ImportClosure.PlatformScope | scripts/ci-platform-scope.ts:122-139 | The answer and a reason that is true of the pull request: the workflow or a file always in scope changed, a file is under a prefix, or one is executed by the job; it is not to run only with none of these but behind an empty prefix |
| ImportClosure.AnswerIff | scripts/ci-platform-scope.ts:132-137 | The job runs exactly when it should, unless some changed file meets an empty prefix first and every other one is the same or touches nothing |
| ImportClosure.NoEmptyPrefix | scripts/ci-platform-scope.ts:122-139 | Without an empty prefix, not running means that no changed file touches the job |
| ImportClosure.EmptyPrefixHides | scripts/ci-platform-scope.ts:134-135 | A concrete file under a named prefix that an empty prefix before it hides |
| SandboxJournal.UnreleasedAppend | scripts/gateSandboxRecords.ts:49-56 | Recording adds exactly one identity to what may be deleted; releasing takes exactly it away |
| SandboxJournal.SurvivesIff | scripts/gateSandboxRecords.ts:49-67 | Whatever stands at a place at exit survives the cleanup if and only if no unreleased record names that place or a directory above it |
| SandboxJournal.ReleasedSurvivesIff | scripts/gateSandboxRecords.ts:28-67 | A directory that appears at a released place survives if and only if no other unreleased record names that place or a directory above it |
| SandboxJournal.RecordedTwiceLoses | scripts/gateSandboxRecords.ts:14-24 | A journal in which a directory was recorded twice and released once, and a later directory with the same inode that the cleanup deletes |
| SandboxJournal.NestedLoses | scripts/gateSandboxRecords.ts:28-67 | A journal in which an inner directory is released and the outer one is not, and a new inner directory that the cleanup deletes though no other record names it |
| SandboxJournal.Gate.Record | scripts/gateSandboxRecords.ts:14-24 | A plain directory is recorded with its identity; anything else is refused and nothing changes |
| SandboxJournal.Gate.ReleaseSandbox | scripts/gateSandboxRecords.ts:28-42 | A release removes the directory, with everything in it, only if it is still the recorded one; otherwise nothing changes |
| SandboxJournal.Gate.Exit | scripts/gateSandboxRecords.ts:49-67 | Cleanup deletes only plain directories of the device, inode and place that an unreleased record says, with everything in them, all of that when it succeeds, and nothing else |
| SandboxJournal.Gate.Play | scripts/gateSandboxRecords.ts:12-42 | Every sequence of operations has the effect of its steps and keeps the journal and what is live in step, as long as no directory is recorded twice while unreleased |
| SandboxJournal.Gate.ReleasedPathSurvives | scripts/gateSandboxRecords.ts:28-67 | After any such sequence, what appears at a released place survives while no directory above it is recorded and unreleased; when the cleanup succeeds, it survives exactly if none above it is removed |
| Markup.PrivacyMarkupSpans | scripts/privacy-markup.ts:2-23 | Switching patterns after an unmatched "<" yields the spans of rescanning with the full pattern and skipping unclosable "<" |
| Markup.ReferenceOrdered | scripts/privacy-markup.ts:2-23 | Spans are disjoint, increasing and inside the text |
| Markup.StripPrivacyHtml | scripts/privacy-markup.ts:25-34 | The strip is the leftmost removal of each "<" up to its next ">" |
| Markup.StrippedHasNothingClosable | scripts/privacy-markup.ts:25-34 | Its output never has "<" followed later by ">" |
| Markup.StripChangesNothingIff | scripts/privacy-markup.ts:25-34 | The strip changes nothing if and only if there is nothing to close |
| Markup.StripIsIdempotent | scripts/privacy-markup.ts:25-34 | Stripping twice is stripping once |

## Left out

- `gateToolFiles`: the same worklist as `executedPaths` over the gate's own imports.
- TreeWalk.TreeFingerprint: nothing is excluded by its label, as for installed files; folders hold no hard-linked cycle, so a disk is a tree and its links.
- JSON parsing and the per-engine record normalizers: a line maps to an arbitrary list of records, a journal to a set of records.
- Unreadable records, `obligation_flaw` and the listing of conversations after the inventory was read: the model takes a read in which nothing was unreadable.
- The contents of `cloudCommand`, its input checks and digests, and the receipt's regular expression: a command is a text and a receipt is parsed already.
- Name classes of the environment, import patterns and path resolution: uninterpreted predicates and functions.
- `percentile`, `stratifiedEffect`, `bootstrapStratifiedEffect`, `mergeByPipeline` and `noiseBand`: statistics over lists, easy members.
- `ringClipPath`, `snapCrop`: paths and crops printed from fitted numbers.
- `rewriteStateFiles`, the state backup and the symlinks of the cutover.
- `launcher_ancestors`, `await_release`, `group_state`, HTTP checks and stage outcomes of the switch: their results are read from the environment.
- Terminal signals and exit receipts of the launcher: they decide nothing about who executes the engine.
- Floating-point error in tile means and rectangle edges: exact reals with explicit rounding.
- Concurrent writers of the cache: writes are one after another, though each may fail at any file.
- PagerFaults.LongLineLost: what a whole page reports of a file with a line over the limit is stated for one dropped stretch only.
- ReversePager.ReadPageBackwards: reads return as many bytes as asked for, since the file does not change during a page.
- StoreMerge.MergeTree: trees are values, so a directory's rename is one step, and symbolic links and special files do not occur.
- StoreLines.UnionKeeps: texts are characters; bytes that are no valid UTF-8 are not modelled.
- IsoWeek.IsoWeekIff: days are unbounded integers, so dates whose Thursday or January lies outside the range of ECMAScript time values are not modelled; the label is a pair, not its printed form.
- GateCache.Cache.Write: sizes and hashes are functions, and a record's bytes are its key and value.
- SandboxJournal.Gate.Exit: the file system is a table from paths to entries with their places; a removal takes every entry at or below its directory, never half of it.
- CloudTransfer.UploadBundle: the deadline and the abort are events of the remote side, and one listing sees every record so far.
- CloudRun.TransportRun: connection, placement and upload outcomes and the number of polls before the deadline come from the environment.
- Inventory.ReadInventory: the moments of each round and the complaints of its read come from the environment.
- SwitchRun.Switch.StopUnit: whether the path is released and which survivors were proven are single reads of the environment; how survivors are proven and retired is `Retirement.RetireGeneration`.
- SwitchRun.Switch.SampleServing: preserved hosts and stage outcomes are one read of the environment per sample; emitting results decides nothing and is not modelled.
- Retirement.Survivors: arguments and working directories are read only for being there, and a read refused for lack of permission does not occur.
- Retirement.Generation: the census of agents, the record and the launcher's ancestors are given.
- PixelRows.Paint: the list of rectangles is a parameter; the layout constants of the picture are fixed data.
