# Friring: verified models of its stateful cores

Friring runs coding agents in terminal panes. Under its user interface sit a number of small, stateful
algorithms whose contracts are stronger than their tests: tailing a transcript that another process is
writing, reading a PTY without splitting characters, handing copies and titles from a reader thread to the
application, launching a session around a provisional resource, matching and filtering lists, a file queue
that must survive crashes, and several path, quoting and discovery algorithms. This project models them in
Dafny and proves what they promise.

`dafny verify dfyconfig.toml` checks everything. Each file holds one module.

| files | part of friring |
|---|---|
| `Tail`, `TailProofs`, `TailRuns` | incremental tailing of one transcript, and its agreement with reading the whole file |
| `StableSort`, `Merge`, `ClaudeScan` | merging main and subagent streams; one Claude session's scan |
| `CodexDiscovery`, `CodexScan`, `CodexBinding` | the bounded walk over date shards, the memo of a pass, binding and scanning, and how current a binding is |
| `Utf8`, `Utf8Encoding`, `PtyReader` | well-formed UTF-8 (RFC 3629, section 4, against its section 3) and the PTY read loop |
| `PaneClipboard`, `PaneClipboardRuns`, `TermSignals` | the two generation-gated channels between reader threads and the application, and which copy the clipboard gets |
| `Launch`, `EgressRuns` | spawning and relaunching sessions around a provisional egress instance; the supervisor's orders in any interleaving |
| `Subsequences`, `Fuzzy`, `FuzzyScores`, `FuzzyFilter` | the fuzzy matcher, what its scores mean, and the filter state of a list |
| `StagedNames`, `BridgeResponses`, `BridgeQueue`, `BridgeRuns`, `BridgeTexts` | the bridge request queue: take, stage, answer, crash, recover |
| `WorkspaceNames`, `Workspace` | unique link names and symlink workspaces |
| `PathCompletion` | directory completion over UTF-8 names |
| `ConfigArgs`, `Shell` | argument rewriting and shell quoting |
| `Common`, `Ordered`, `Sorting` | sequences, finite sets and sorting used by the rest |

## How the models are built

Code that changes state is a class or a method with loops, proved against a function of its inputs and its
old state; what friring promises is then proved about that function, over every run where runs matter. The
two channels between threads are state machines over atomic steps, and their lemmas hold for every
interleaving. What the environment does enters as a parameter: the bytes and stat results one tailing pass
meets, which step of a launch fails, what a directory lists, which characters are white space.

Assumptions about the environment, each a predicate of the model:

- Tailing: every change of a file moves its modification time on, and the stat signature is injective on
  modification time and length. Between two passes the writer appends, or leaves the file shorter than what was
  ingested. While a pass looks at the file the writer creates it or appends to it (`TailProofs.RacingPass`), or
  cuts it short or removes it, in any way that leaves it in the end shorter than what has been ingested
  (`TailProofs.CutShort`, `TailProofs.Admissible`). Any open or read may fail.
- The bridge queue: a client submits each key once per session, under the name `key.req`, and leaves no other
  file that the broker would take for a request; session keys are ones whose staged names can be read back
  (`BridgeRuns.Step`). Writing an answer may fail, and the broker may die between any two steps, between writing
  an answer and finishing its request, between moving a request and reading it, and part-way through a recovery.
- Directory listings name each entry once (`CodexDiscovery.ListsOnce`, `BridgeQueue.Lists`), none with a slash in it
  (`PathCompletion.Components`), and a dash is not
  white space (`WorkspaceNames.Spaces`).
- Generations: a run of the title channel is shorter than 2^64 - 1 steps, so the counter never reaches the
  value that stands for "never synced".

## Where the code keeps less than it seems to promise

Each entry names a lemma that says exactly when the code keeps the promise, and where there is one an input on
which it does not.

- A request that was taken is finished whatever became of its answer. One whose answer is too long, or cannot be
  written, is then neither queued, staged nor answered (`BridgeRuns.OversizedAnswerLosesRequest`). A request is
  lost exactly when its staged file was removed and no serving of it wrote an answer or left it to a saga
  (`BridgeRuns.RequestIsKeptIff`). An answer goes into the journal before friring tries to write it, so a
  lost request may have one there. It counts as lost all the same: only a client that submits the key again would
  get it.
- A file that is created, read and deleted around one stat leaves its text behind for as long as it is absent
  (`TailRuns.VanishedFileIsLost`): a disappearance is answered exactly when the stored signature is not that of an
  absent file, or a backlog is noted (`TailRuns.VanishingIsAnsweredIff`). After any run the text fed is the file's
  own, unless the file is shorter than it: then it is lost in that way, or the next pass starts over
  (`TailRuns.TailingIsWholeFileReading`, `TailRuns.BehindIsAnswered`).
- An open or read that fails closes the signature gate on a backlog that no later pass comes back for until the
  file changes (`TailRuns.UnreadableFileStrandsBacklogIff`, `TailRuns.StrandedStaysStranded`), and a one-shot scan
  of a file it cannot open says complete with nothing read (`TailProofs.UnreadableScanSaysComplete`). A complete
  scan has every whole line exactly when the pass it stopped at could read, or found nothing left
  (`TailProofs.DrainedIffReadable`).
- A rewrite no shorter than what was ingested is never noticed (`TailRuns.RewriteIsMissed`); the exact condition is
  `TailProofs.ScanAgreesIff`.
- A Codex rollout that shrinks to something without a complete line is dropped from the parser, but the scan
  reports no change; the Claude scan forces one (`CodexScan.ShrinkGoesUnreportedIff`).
- A bound Codex session is looked up again only when the newest file name changes, and keeps its rollout when that
  look finds nothing. A rollout whose head was not yet written is not looked at again while the newest name stays
  (`CodexBinding.LateHead`), and a session stays bound to a rollout that is gone
  (`CodexBinding.GoneRolloutStaysBound`). What it is bound to after any run is `CodexBinding.BoundAtLastFind`, and
  when that is what belongs to it now is `CodexBinding.BindingIsCurrentIff`.
- Each tick puts the copy captured last on the clipboard, of those it drained. Panes are drained one after the
  other, so a copy of a pane that had its turn already waits for the next tick, where it replaces a newer one of
  another pane (`PaneClipboardRuns.OlderCopyWins`). The last capture of all stays exactly when no tick chooses an older
  copy than one before it (`PaneClipboardRuns.LastCaptureWinsIff`); with one pane it always does
  (`PaneClipboardRuns.OnePaneHoldsLatest`).
- Unstamped events are documented to inherit their stream's last seen timestamp. A skipped subagent prompt's is
  passed over (`Merge.PromptStampIsPassedOver`, `Merge.KeyIsDocumentedIff`).
- Dropping a managed path is documented to drop the token before it when that is a flag. The code drops the
  last token it has *put out*, which can be an unrelated flag (`ConfigArgs.UnrelatedFlagIsLost`). The two agree
  exactly when no dropped path strays (`ConfigArgs.RewriteIsDocumentedIff`).
- Accepting a completion that ends in a slash leaves behind the candidates that went on beyond the common part
  (`PathCompletion.SlashLosesCandidates`, `PathCompletion.AcceptingKeepsCandidatesIff`).
- A relaunch whose new pane cannot be opened after the old one was killed leaves the session naming a dead
  pane (`Launch.DeadPaneIsKeptIff`).
- The title and notification are not read atomically and can be torn (`TermSignals.TornPairReopensGate`), exactly
  when the title changed between the two reads (`TermSignals.PairIsTornIff`); then the gate is open again.
- A pop after a push does not always restore the cursor (`FuzzyFilter.PopUndoesPush`), and a refilter after the
  list shrank leaves the cursor of an inactive filter out of bounds (`FuzzyFilter.RefilterAfterChange`).
- A queue name ending in several `.req` names the same request as the name ending in one
  (`StagedNames.RepeatedSuffixAliases`, `StagedNames.OwnNameIff`), and a take that comes to a name twice loses the
  staged copy (`BridgeQueue.ListedTwiceIsUnstaged`, `BridgeQueue.TakenStaysStagedIff`, `BridgeQueue.LastNameDecides`).

## Model

| member | source | states |
|---|---|---|
| `Tail.LastNewline` | src/activity/mod.rs:873-883 | finds the last newline of a window, and none exactly when it has no complete line |
| `Tail.ReadUntilNewline` | src/activity/mod.rs:875-881 | returns the bytes up to and including the first newline, or all of them when there is none |
| `Tail.FinishLines` | src/activity/mod.rs:873-884 | keeps a window's whole lines, or finishes the one line it is part of from what follows; nothing when no line is complete |
| `Tail.ReadNewLines` | src/activity/mod.rs:862-888 | reads whole lines past an offset through the open, stat, bulk read and long-line read of one call, as the specification of one read says |
| `Tail.Tailer.TailSource` | src/activity/mod.rs:825-854 | one call's new signature, offset, backlog flag and fed text, and its three answers, for every mix of file states its system calls meet |
| `Tail.Tailer.Scan` | src/activity/mod.rs:548-565 | the caller's pass: tail, and on a shrink discard the parser's text and tail again, reporting a change whatever is read |
| `Tail.ScanOnce` | src/activity/mod.rs:396-428 | drains passes until none is backfilling; complete only when a pass left no backlog within the bound |
| `TailProofs.SameSigIff` | src/activity/mod.rs:825-835 | the signature is the same exactly when the file is absent both times, or present with the same modification time and length |
| `TailProofs.NewLinesContinue` | src/activity/mod.rs:857-888 | what a read returns is whole lines, continues the file at the offset, exceeds the cap only as a single line, and flags exactly that more bytes remain |
| `TailProofs.TailPassAgrees` | src/activity/mod.rs:817-854 | a call that meets no shrink extends the fed text, which is a prefix of the file afterwards exactly when it was one before |
| `TailProofs.ScanAgreesIff` | src/activity/mod.rs:548-565 | after a pass the fed text is the file's own bytes exactly when the file still began with what was fed, or had become shorter than it and the pass looked |
| `TailProofs.LinesAreWellFormed` | src/activity/mod.rs:883-887 | whole-line chunks of a valid UTF-8 file are each valid UTF-8, so the lossy conversion loses nothing |
| `TailProofs.StaticPassProgress` | src/activity/mod.rs:825-888 | on an unchanging file a pass that leaves a backlog moves the offset on, and one that leaves none has ingested up to the last newline |
| `TailProofs.TwoPassesExceedCap` | src/activity/mod.rs:857-888 | two passes in a row that leave a backlog ingest more than the cap together |
| `TailProofs.StaticDrain` | src/activity/mod.rs:817-854 | on an unchanging file repeated passes end without backlog, just past the last newline, within two passes for every cap of bytes |
| `TailProofs.ScanOnceCompletes` | src/activity/mod.rs:390-428 | given passes in proportion to the file's size, a one-shot scan is complete and was fed exactly the whole-line prefix |
| `TailProofs.CompleteMeansEveryLine` | src/activity/mod.rs:390-428 | under any bound on its passes, a scan that can read says complete only when it was fed exactly the whole-line prefix |
| `TailProofs.DrainedIffReadable` | src/activity/mod.rs:390-428 | whichever passes can read: a complete scan has ingested every whole line if and only if the pass it stopped at could read, or found nothing left |
| `TailProofs.UnreadableScanSaysComplete` | src/activity/mod.rs:862-863 | a scan of a file it cannot open is complete after one pass with nothing read |
| `TailProofs.SettledPassIff` | src/activity/mod.rs:825-888 | against a writer too, a pass that leaves no backlog has ingested every line whole when it took the length if and only if it could read, or there was none left |
| `TailRuns.LookingEstablishesInv` | src/activity/mod.rs:825-854 | any pass that looks at the file, readable or not, leaves a state in which a closed gate means everything complete was ingested exactly when that look could read, or nothing was left |
| `TailRuns.PassKeepsInv` | src/activity/mod.rs:548-565 | every admissible pass keeps that state, also across shrinks between and during passes, failed reads, files created behind a stat and files that vanish |
| `TailRuns.RunKeepsInv` | src/activity/mod.rs:532-568 | it holds after every run of admissible passes |
| `TailRuns.TailingIsWholeFileReading` | src/activity/mod.rs:817-888 | after any run, whichever passes could read and however the file was cut short between or during them, the parser was fed whole lines, exactly the file's first `offset` bytes unless the file is shorter than that, and then it is lost or the gate is open; valid UTF-8 if the file is; behind a closed gate they are all its whole lines if and only if the last look could read, or found none left |
| `TailRuns.CutShortIsBehind` | src/activity/mod.rs:825-888 | a pass during which the file was cut short leaves the gate open on a file shorter than what was ingested, or the file lost |
| `TailRuns.BehindIsAnswered` | src/activity/mod.rs:836-838 | the next pass over such a file starts over if and only if its stat does not find it lost |
| `TailRuns.CutFileIsBehind` | src/activity/mod.rs:842-888 | a concrete pass over a file emptied between its two reads, after which the next pass will see the shrink |
| `TailRuns.DrainIsRun` | src/activity/mod.rs:396-428 | a one-shot scan leaves what a run over the passes it used leaves, so the above holds of it |
| `TailRuns.VanishingIsAnsweredIff` | src/activity/mod.rs:832-838 | a pass over a vanished file starts over if and only if the stored signature is not an absent file's, or a backlog is noted; otherwise it changes nothing |
| `TailRuns.VanishedFileIsLost` | src/activity/mod.rs:830-853 | a concrete admissible run, a file created, read and deleted around one stat, after which the stale text stays |
| `TailRuns.RewriteIsMissed` | src/activity/mod.rs:836-842 | a concrete same-or-longer rewrite after which the fed text is not the file's |
| `TailRuns.UnreadableFileStrandsBacklogIff` | src/activity/mod.rs:842-850 | a pass that notes no backlog has ingested every whole line if and only if the file was readable or had none left |
| `TailRuns.StrandedStaysStranded` | src/activity/mod.rs:832-835 | any number of passes whose stat finds the file unchanged leave a stranded tail exactly as it is |
| `StableSort.SortIsStable` | src/activity/mod.rs:655 | the sort permutes its input into key order and keeps equal keys in their order |
| `StableSort.StableSortIsUnique` | src/activity/mod.rs:655 | any two stable sorts of one input are equal, so the result does not depend on the algorithm |
| `StableSort.SortedSelectionKeepsOrder` | src/activity/mod.rs:655 | any selection already in key order comes through the sort unchanged |
| `Sorting.NameLeIff` | src/activity/codex.rs:187-230 | names are ordered as their text is: one before another when it is its beginning or smaller where they first differ |
| `Merge.PushStream` | src/activity/mod.rs:631-651 | pushes a stream's kept events with their effective timestamps and origin, through the running last timestamp |
| `Merge.RebuildMerged` | src/activity/mod.rs:629-657 | main first and then the subagents in path order, sorted by effective timestamp |
| `Merge.StreamIsContribution` | src/activity/mod.rs:639-650 | a stream contributes exactly its kept events, in order, stamped with its origin |
| `Merge.StreamAt` | src/activity/mod.rs:637-650 | read event by event, main contributes everything as it is, a subagent everything but prompts under its label, each with its effective timestamp, in order |
| `Merge.InheritsLast` | src/activity/mod.rs:633-642 | an unstamped event sorts by the last timestamp of an event before it that is not skipped |
| `Merge.InheritsFirst` | src/activity/mod.rs:633-637 | with none before it, it sorts by the stream's first timestamp, whichever event bears it, and by 0 when there is none |
| `Merge.StreamContents` | src/activity/mod.rs:652-655 | there is one stream for main with every event, and one per subagent without its prompts |
| `Merge.MergeIsStable` | src/activity/mod.rs:621-657 | the merge is a permutation of all contributions, in key order, ties in stream order with main first |
| `Merge.MergedIsMerge` | src/activity/mod.rs:651-657 | the merged view is a stable sort by timestamp of the events of all streams, ties in the streams' order |
| `Merge.OrderedStreamStaysInOrder` | src/activity/mod.rs:621-657 | a stream whose effective timestamps never decrease is an in-order subsequence of the merge |
| `Merge.KeyIsDocumentedIff` | src/activity/mod.rs:621-645 | an event sorts by the timestamp the documentation gives it if and only if the last one before it is not a skipped prompt's that differs from what the code inherits |
| `Merge.PromptStampIsPassedOver` | src/activity/mod.rs:639-645 | a concrete stream whose last event sorts by 10 instead of the documented 20 |
| `ClaudeScan.ReportsIff` | src/activity/mod.rs:548-565 | a pass reports a change exactly when it fed or discarded something or met a shrink |
| `ClaudeScan.TouchesIff` | src/activity/mod.rs:578-616 | a listed transcript touches its tail exactly when the streams are no longer the same, or its file shrank |
| `ClaudeScan.SyncListed` | src/activity/mod.rs:578-616 | tails one listed transcript, starting fresh when new, and reports a change exactly when it is new, relabelled, or its tail does |
| `ClaudeScan.ClaudeSource.SyncSubs` | src/activity/mod.rs:573-619 | drops unlisted tails, starts and tails the listed ones, and reports a change exactly when one was dropped or touched; no reported change means the merge would be the same |
| `ClaudeScan.ClaudeSource.TailMain` | src/activity/mod.rs:539-566 | binds the transcript when found and tails it, and reports a change exactly when something was fed or discarded or a shrink was met |
| `ClaudeScan.ClaudeSource.Scan` | src/activity/mod.rs:532-568 | leaves a tail for exactly the listed transcripts, and a view that is a stable merge of main and one stream for each, lower paths first on ties, although it is rebuilt only on a reported change; reports one exactly when something was fed, discarded, dropped or relabelled, or a shrink was met |
| `ClaudeScan.SameStreamsMergeAlike` | src/activity/mod.rs:629-657 | tails fed the same text under the same paths and labels merge to the same stream |
| `Ordered.InOrderByRank` | src/activity/mod.rs:294-297 | each path is listed once, behind as many as are lower |
| `ClaudeScan.MergedViewIsView` | src/activity/mod.rs:629-657 | the view merges main's stream and exactly one of each subagent's, each behind those of all lower paths |
| `ClaudeScan.ScanKeepsListed` | src/activity/mod.rs:573-590 | a scan leaves tails for exactly the listed transcripts |
| `ClaudeScan.LabelsAreLatest` | src/activity/mod.rs:591-595 | every transcript bears the label it was last listed with |
| `ClaudeScan.EmptyRewriteLeavesNothing` | src/activity/mod.rs:552-564 | after a rewrite to nothing the view holds the subagents' events only |
| `ClaudeScan.TailsAreRuns` | src/activity/mod.rs:532-619 | after any scans, with transcripts listed, dropped and listed again, every tail is where its own passes since it was started lead |
| `ClaudeScan.ViewShowsTheFiles` | src/activity/mod.rs:528-657 | after any run of scans the view is a stable merge of exactly one stream for each file, main's first and then in path order: the parse of the file's own first bytes, as far as they were read, under its label |
| `CodexDiscovery.RecentDayDirs` | src/activity/codex.rs:190-201 | the nested walk with its early exit returns exactly the first 45 of all day shards |
| `CodexDiscovery.RecentRolloutFiles` | src/activity/codex.rs:190-216 | the rollouts of those shards, each day's newest first |
| `CodexDiscovery.ShardsDescend` | src/activity/codex.rs:187-230 | the nested listings are exactly the year/month/day directories there are, in descending order of the whole path |
| `CodexDiscovery.RecentFilesDescend` | src/activity/codex.rs:187-216 | the listing holds exactly the rollout names in the newest shards, newest first throughout |
| `CodexDiscovery.RecentFilesAre` | src/activity/codex.rs:203-230 | a path is listed exactly when it is an entry of one of the newest shards named `rollout-` and so on to `.jsonl` |
| `CodexDiscovery.ShardsAreSubdirectories` | src/activity/codex.rs:190-228 | a shard is a subdirectory three deep, none of the three hidden, and every such subdirectory is one |
| `CodexDiscovery.RecentShardsAreNewest` | src/activity/codex.rs:190-201 | the walk returns 45 shards or all there are, each newer than every one it leaves out |
| `CodexDiscovery.WalkIsPrefix` | src/activity/codex.rs:192-201 | wherever the walk stops, what it has collected is how the sorted list of all shards begins |
| `CodexScan.Discovery.Files` | src/activity/codex.rs:51-56 | the listing a fresh walk would give, from at most one walk |
| `CodexScan.Discovery.Head` | src/activity/codex.rs:59-64 | the head a fresh parse would give, from at most one parse of each file |
| `CodexScan.First` | src/activity/codex.rs:167-184 | none exactly when nothing qualifies, else a qualifying file with none before it |
| `CodexScan.DiscoverCodexFile` | src/activity/codex.rs:154-185 | binds as a fresh look at the tree would, whatever other sessions have already put into the memo |
| `CodexScan.BoundIsNewestOwnThread` | src/activity/codex.rs:150-185 | a session is bound exactly when something belongs to it, never to a subagent's rollout, and to the newest file that does: by id if any file bears it, else by directory |
| `CodexScan.BelongsIff` | src/activity/codex.rs:160-184 | a rollout belongs to a session if it is no subagent's and its name contains the session's id, or when no listed one does, ran in one of its directories |
| `CodexScan.NormalizedIs` | src/session/activity/mod.rs:245-252 | directories compare without trailing slashes, and one that is nothing else as it is |
| `CodexScan.CodexSource.Scan` | src/activity/codex.rs:98-148 | binds, rebinds to a newer thread from scratch, or keeps the file, then tails it; without a root or a file nothing happens |
| `CodexScan.RebindStartsOver` | src/activity/codex.rs:113-128 | a source that moved to another rollout was fed nothing but that rollout |
| `CodexScan.StayingKeepsTail` | src/activity/codex.rs:113-131 | a source that stays with its rollout keeps its tail; one that moves has a new file and a fresh tail |
| `CodexScan.CodexPassTailsAlike` | src/activity/codex.rs:135-147 | a Codex pass leaves the tail where a Claude pass would, and reports differently only on a shrink |
| `CodexScan.ShrinkGoesUnreportedIff` | src/activity/codex.rs:138-147 | for every racing pass, a shrink is reported as no change if and only if the retry is gated, finds the file empty, or reads no complete line, although the parser was emptied |
| `CodexScan.UnreportedMeansNoLine` | src/activity/codex.rs:138-147 | a readable retry past the gate that reports nothing met a file without a complete line |
| `CodexScan.UnchangingShrinkGoesUnreportedIff` | src/activity/codex.rs:138-147 | over an unchanging file the shrink goes unreported if and only if it holds no complete line or bears the old signature |
| `CodexBinding.BoundAtLastFind` | src/activity/codex.rs:109-131 | after every run of passes a session is bound to what belonged to it when one last looked and found something, and to nothing if none did; the newest name it knows is the last pass's |
| `CodexBinding.BindingIsCurrentIff` | src/activity/codex.rs:109-131 | after one more pass it is bound to what belongs to it now if and only if the pass looked and found something or had nothing bound, or did not look and what is bound is still what belongs |
| `CodexBinding.VainLookKeepsBinding` | src/activity/codex.rs:115-131 | a look that finds nothing leaves the binding as it was |
| `CodexBinding.SameHeadsBindAlike` | src/activity/codex.rs:154-185 | what belongs to a session depends on the listing and the heads alone |
| `CodexBinding.LateHeadIsMissed` | src/activity/codex.rs:113-131 | a bound session keeps its rollout through any number of passes that find the same newest name, whatever their heads say |
| `CodexBinding.LateHead` | src/activity/codex.rs:113-131 | two concrete trees, alike but for the head of the newest rollout, written late: after any number of passes over the later one the session is still bound to the older rollout |
| `CodexBinding.GoneRolloutStaysBound` | src/activity/codex.rs:115-131 | two concrete trees: the bound rollout is gone and nothing belongs to the session any more, which stays bound to it |
| `Utf8.SplitAtBoundary` | src/agent/backend.rs:28-37 | a well-formed text splits at any character boundary into two |
| `Utf8.CharsOfPieces` | src/agent/backend.rs:28-37 | the characters of well-formed pieces are the characters of their concatenation |
| `Utf8.LeadBefore` | src/agent/backend.rs:40-41 | in well-formed text a continuation byte's lead is at most three bytes before it |
| `Utf8Encoding.EncodedIsWellFormed` | src/agent/backend.rs:28-63 | encoded characters are well-formed text, read back one by one |
| `Utf8Encoding.WellFormedIsEncoded` | src/agent/backend.rs:28-63 | every well-formed text is the encoding of some characters |
| `PtyReader.Utf8ReadyPrefixLen` | src/agent/backend.rs:38-63 | holds back at most three bytes, and exactly the truncated character at the end if there is one |
| `PtyReader.ReadyCutIsBoundary` | src/agent/backend.rs:28-63 | cutting there leaves two well-formed texts whenever the stream is well-formed |
| `PtyReader.ReadyIsLongestText` | src/agent/backend.rs:28-63 | of what has come of a well-formed stream nothing longer than the part before the cut is text, so no complete character waits |
| `PtyReader.ReadKeepsDelivery` | src/agent/backend.rs:1558-1609 | one read keeps chunks, carry and unread rest together equal to the stream |
| `PtyReader.ReaderLoop` | src/agent/backend.rs:1558-1622 | for every stream and every way of reading it: after each read the parser has been handed, in chunks, all that was received so far but the bytes of a truncated character at its end; the chunks concatenate to the stream, none empty, and a well-formed stream gives well-formed chunks and nothing to flush |
| `PtyReader.ChunkingIsInvisible` | src/agent/backend.rs:1558-1622 | however a well-formed stream is split, the parser sees the same characters |
| `PaneClipboard.Clipboard.Push` | src/agent/backend.rs:201-213 | takes the next capture position, enqueues behind dropping the oldest when full, and then bumps the generation |
| `PaneClipboard.Clipboard.DrainNew` | src/agent/backend.rs:215-226 | nothing behind a closed gate, else the whole queue in order, with the gate closed at the loaded generation |
| `PaneClipboard.MethodsAreUninterruptedSteps` | src/agent/backend.rs:201-226 | the two operations are the interleaved steps taken without interruption |
| `PaneClipboard.DrainNotesWhatItLoaded` | src/agent/backend.rs:215-226 | whatever is pushed meanwhile, a drain notes the generation it loaded and no later one |
| `PaneClipboard.StepKeepsInv` | src/agent/backend.rs:179-226 | every atomic step of either thread on any pane keeps the queue, gate and capture-order invariants |
| `PaneClipboard.NoCopyIsLost` | src/agent/backend.rs:179-226 | in every interleaving a quiet pane with copies has an open gate, every copy is delivered, queued or dropped behind eight newer ones, the newest is never dropped, and delivery is in capture order |
| `PaneClipboard.DeliveredThenQueued` | src/agent/backend.rs:1740-1753 | what was drained was captured before what is still queued |
| `PaneClipboard.CaptureOrderIsTotal` | src/agent/backend.rs:174-178 | no two panes ever hold copies with the same capture position |
| `PaneClipboardRuns.TickKeepsLatestIff` | src/app/mod.rs:4815-4834 | after one more tick of any run the clipboard holds the latest of all copies drained if and only if the tick drained something captured after everything before, or nothing while it already did |
| `PaneClipboardRuns.HoldsLatestIff` | src/app/mod.rs:4815-4834 | in every interleaving the clipboard holds the latest of all drained copies if and only if no earlier tick chose a later one |
| `PaneClipboardRuns.LastCaptureWinsIff` | src/agent/backend.rs:174-178 | once nothing is queued or half-pushed any more, the clipboard holds the copy captured last of all if and only if no tick chose an older copy than a tick before it |
| `PaneClipboardRuns.OnePaneHoldsLatest` | src/agent/backend.rs:194-200 | with one pane the clipboard holds the latest copy drained after every run |
| `PaneClipboardRuns.OlderCopyWins` | src/app/mod.rs:4815-4834 | a concrete run of two panes and two ticks after which the older of two copies is on the clipboard |
| `TermSignals.Cells.StoreTitle` | src/agent/backend.rs:97-105 | stores the title and then bumps the generation |
| `TermSignals.Cells.StoreNotification` | src/agent/backend.rs:115-124 | stores the notification and then bumps the generation |
| `TermSignals.Cells.SyncAgentMeta` | src/agent/backend.rs:1730-1737 | nothing behind a closed gate, else both cells, with the gate closed at the loaded generation |
| `TermSignals.MethodsAreUninterruptedSteps` | src/agent/backend.rs:97-137 | the operations are the interleaved steps taken without interruption |
| `TermSignals.RunKeepsInv` | src/agent/backend.rs:97-125 | over every interleaving whatever was read is current, or a bump that reopens the gate has come or is still to come |
| `TermSignals.ClosedGateMeansInSync` | src/agent/backend.rs:1719-1737 | whenever the gate is closed and neither side is mid-operation, the pair last returned is the current one |
| `TermSignals.TornPairReopensGate` | src/agent/backend.rs:1730-1737 | an interleaving that returns a title and a notification from two moments, with the gate open after it |
| `TermSignals.PairIsTornIff` | src/agent/backend.rs:1730-1737 | in every interleaving the pair returned is the one held at the second read if and only if the title then is the title at the first |
| `Launch.Supervisor.Prepare` | src/sandbox/egress.rs:1045-1129 | releases the provisional instance it supersedes, and then binds a new one, unless its proxy fails to start |
| `Launch.Supervisor.CommitInstance` | src/sandbox/egress.rs:1130-1141 | retires the session's instance for this one, only if it is still the provisional one |
| `Launch.Supervisor.DiscardInstance` | src/sandbox/egress.rs:1142-1148 | releases this instance, only if it is still the provisional one |
| `Launch.Supervisor.StopSession` | src/sandbox/egress.rs:1149-1156 | releases and retires whatever the session holds |
| `Launch.Supervisor.CommitEgress` | src/sandbox/egress.rs:296-321 | applies a launch's outcome: keep, take over, or clear |
| `Launch.Supervisor.DropEgress` | src/sandbox/egress.rs:338-352 | dropping an uncommitted outcome releases exactly the instance it would have taken over |
| `Launch.Supervisor.Compose` | src/agent/sandboxing.rs:303-372 | what a composition leaves provisional when it is refused, skipped, filtered or not |
| `Launch.Spawn` | src/agent/backend.rs:1077-1255 | the first launch with every step failing or not: its session, and the supervisor afterwards |
| `Launch.LiveSession.Restart` | src/agent/backend.rs:1853-1985 | the relaunch with every step failing or not: session, handles, home, supervisor, and which pane was killed |
| `Launch.AttemptEffect` | src/sandbox/egress.rs:241-352 | committing or dropping leaves nothing provisional; only committing changes what is live |
| `Launch.FailureLeavesSessionAlone` | src/agent/backend.rs:1853-1985 | a failed relaunch leaves pane, handles, home and the session's live instance as they were; a successful one has the new pane and handles, and takes over, drops or keeps the live instance as its composition was filtered, unfiltered or skipped |
| `Launch.FailedSpawnLeavesNothing` | src/agent/backend.rs:1077-1255 | a failed spawn leaves nothing provisional and nothing new live |
| `Launch.RunKeepsAccounts` | src/agent/backend.rs:1077-1255 | over every sequence of spawns, relaunches and closes the supervisor's books agree with every instance's history |
| `Launch.EveryInstanceIsAccountedFor` | src/sandbox/egress.rs:241-352 | every instance ever bound was committed or released exactly once and retired at most once, and live instances are one each for existing sessions |
| `Launch.DeadPaneIsKeptIff` | src/agent/backend.rs:1853-1985 | a refused composition kills nothing; a session is left naming the pane it killed if and only if the kill worked and the new pane could not be opened |
| `Launch.SpawnSucceedsIff` | src/agent/backend.rs:1077-1255 | a first launch succeeds if and only if it is not refused, its place is ready, or on the host its policy's socket is, and a pane opens, which is the session's |
| `Launch.RestartSucceedsIff` | src/agent/backend.rs:1853-1985 | a relaunch succeeds if and only if it is not refused, does not leave a container for the host, the old pane is gone or left behind in another container, its place is ready and a pane opens |
| `Launch.HomeIsWhereLaunched` | src/agent/backend.rs:1159-1160 | over every run a session lives in the container it was last successfully launched into since it was last closed, and on the host exactly when it was launched into none |
| `Launch.PlacedNeverLeavesForHost` | src/agent/backend.rs:1897-1903 | after any run, a relaunch without a place of a session that lives in a container changes no session and kills nothing |
| `Launch.ComposingSupersedes` | src/sandbox/egress.rs:1045-1052 | asking for a proxy releases what was provisional for the session, however the composition ends |
| `Launch.Supervisor.StopAll` | src/sandbox/egress.rs:1157-1165 | releases everything provisional and retires everything live |
| `EgressRuns.OrdersKeepAccounts` | src/sandbox/egress.rs:1031-1165 | however the orders of any number of launches interleave, what is provisional and live agrees with every instance's history, each settled at most once and retired at most once |
| `EgressRuns.ClaimTakesEffectIff` | src/sandbox/egress.rs:1130-1148 | committing or dropping a claim changes anything if and only if its instance was bound for that session and not settled since |
| `EgressRuns.SettledClaimIsDead` | src/sandbox/egress.rs:1130-1148 | a superseded or settled claim changes nothing after any further orders, whoever commits or drops it |
| `EgressRuns.ClaimFate` | src/sandbox/egress.rs:1031-1165 | an instance stays provisional exactly as long as it is not committed or dropped, its session not prepared again or stopped, and not everything stopped; it is ever committed if and only if its own commit is the first of these |
| `EgressRuns.LiveFate` | src/sandbox/egress.rs:1130-1165 | a live instance is retired exactly when its session or everything stops or a good claim of its session is committed |
| `Subsequences.SubsequencePicks` | src/fuzzy.rs:34-43 | a subsequence is picked out by some increasing positions |
| `Subsequences.PicksIsSubsequence` | src/fuzzy.rs:34-43 | whatever increasing positions pick out is a subsequence |
| `Subsequences.GreedyFirst` | src/fuzzy.rs:56-90 | taking the first element that matches never loses a match: the exchange argument behind all three passes |
| `Fuzzy.ForwardPass` | src/fuzzy.rs:52-66 | finds the earliest completion of the query, or there is no match at all |
| `Fuzzy.BackwardPass` | src/fuzzy.rs:68-80 | finds the latest start that still covers the query by that end |
| `Fuzzy.CollectPass` | src/fuzzy.rs:82-92 | collects exactly as many strictly increasing positions as the query has characters, the first at the start, each the first match after the one before it, the last at the end |
| `Fuzzy.PicksEndAtEarliestEnd` | src/fuzzy.rs:82-92 | any positions within the window end exactly at the earliest completion |
| `Fuzzy.ScorePositions` | src/fuzzy.rs:101-120 | the score of a window by its start, its gaps and the haystack's length, as the laws of `FuzzyScores` pin it; the gap count never underflows |
| `Fuzzy.TighterScoresHigher` | src/fuzzy.rs:98-120 | with equally good starts fewer gaps score strictly higher, by how much |
| `Fuzzy.Match` | src/fuzzy.rs:44-96 | there is a match exactly when the folded query is a subsequence; positions are increasing byte offsets of the greedy match in the tightest window for the earliest end |
| `FuzzyScores.MatchesIff` | src/fuzzy.rs:44-66 | a query matches a field if and only if its characters are found there in order, in any case |
| `FuzzyScores.OffsetIsInBytes` | src/fuzzy.rs:82-92 | a position is where its character's bytes begin |
| `FuzzyScores.LongerFieldScoresLess` | src/fuzzy.rs:19-21 | text behind a match leaves its window alone and never raises its score, and eight characters of it cost exactly one point |
| `FuzzyScores.BetterStartScoresMore` | src/fuzzy.rs:101-111 | in fields of one length and windows of one width, the first character beats a word's first by 8, and that any other by 8 |
| `FuzzyScores.TighterMatchScoresMore` | src/fuzzy.rs:112-117 | in fields of one length and with equally good starts each skipped character costs a point, and four more while it costs a consecutive bonus |
| `FuzzyScores.WholeFieldScore` | src/fuzzy.rs:101-120 | a field that is the query scores every bonus less its length penalty |
| `FuzzyFilter.FilterRows` | src/fuzzy.rs:223-249 | exactly the rows the matcher accepts, in list order |
| `FuzzyFilter.Filter.RealIndex` | src/fuzzy.rs:159-165 | the list row under a filtered position, defined exactly for positions shown |
| `FuzzyFilter.Filter.VisibleIndices` | src/fuzzy.rs:168-174 | the rows shown agree position by position with the index mapping |
| `FuzzyFilter.Filter.EditQuery` | src/fuzzy.rs:223-249 | the new query, its rows, and the cursor moved onto the row it was on |
| `FuzzyFilter.Filter.PushChar` | src/fuzzy.rs:177-184 | an edit that appends a character |
| `FuzzyFilter.Filter.PopChar` | src/fuzzy.rs:186-200 | an edit that removes the last character, and nothing without a query |
| `FuzzyFilter.Filter.ClearQuery` | src/fuzzy.rs:202-211 | back to the whole list with the cursor on its row, or on the first |
| `FuzzyFilter.Filter.RefilterRows` | src/fuzzy.rs:213-221 | the same query over a list that may have changed |
| `FuzzyFilter.MatchingRowsAreMatches` | src/fuzzy.rs:131-139 | the rows of an active filter are exactly the matching ones, strictly increasing |
| `FuzzyFilter.RunShowsMatches` | src/fuzzy.rs:122-249 | over every sequence of edits the filter shows exactly the matching rows and the cursor is in bounds |
| `FuzzyFilter.QueryIsTyped` | src/fuzzy.rs:177-221 | over every sequence of edits the query is the text a line of input would hold, and clearing it shows the whole list |
| `FuzzyFilter.CursorFollowsItsRow` | src/fuzzy.rs:122-131 | the selected row stays selected while it still matches, else the first match is selected |
| `FuzzyFilter.PushNarrows` | src/fuzzy.rs:177-184 | a longer query only removes rows |
| `FuzzyFilter.PopUndoesPush` | src/fuzzy.rs:177-200 | a pop after a push restores query and rows, and the cursor if and only if its row survived the push or nothing did while the first row was selected |
| `FuzzyFilter.RefilterAfterChange` | src/fuzzy.rs:213-221 | after the list changed a refilter leaves a valid cursor if and only if a query is active or the cursor was within the new list |
| `StagedNames.SanitizedIsOneSegment` | src/paths.rs:568-584 | a sanitized key is a non-empty segment of safe characters, not all dots, and a fixed point |
| `StagedNames.SanitizedPointwise` | src/paths.rs:568-584 | each unsafe character becomes a dash and every other stays, unless nothing but dots is there |
| `StagedNames.KeysOfOneChar` | src/session/bridge.rs:211-245 | keys have 8 to 64 characters, each a small letter, a digit or a dash |
| `StagedNames.UuidsAreGood` | src/paths.rs:560-584 | a UUID is a key friring accepts, stays as it is, and as a session key gives staged names that are read back |
| `StagedNames.StagedNameIsSegment` | src/paths.rs:1055-1060 | a staged name has safe characters only and is at most 70 longer than the session's part |
| `StagedNames.ParsedIsWellFormed` | src/paths.rs:1174-1182 | whatever parses has a non-empty session and a valid key, and is what they print |
| `StagedNames.StagedNameRoundTripIff` | src/paths.rs:1055-1060 | parsing a printed name gives back session and key if and only if the session is non-empty, fixed by sanitizing, without `__` and not ending in `_` |
| `StagedNames.TrimOfQueueName` | src/paths.rs:1021 | a queue name that is a key and one suffix is stripped to that key |
| `StagedNames.OwnNameIff` | src/paths.rs:1021 | a queue name is its key and one suffix if and only if it does not end in two |
| `StagedNames.RepeatedSuffixAliases` | src/paths.rs:1021 | two different queue names that are stripped to one key |
| `BridgeQueue.Names` | src/paths.rs:1293-1342 | the request names among the entries read, stopping at one past the maximum or at the scan bound, whichever the listing reaches first |
| `BridgeQueue.WantedAre` | src/paths.rs:1009-1011 | a name is wanted exactly as often as it is listed if it ends in `.req`, and never else |
| `BridgeQueue.ChooseNames` | src/paths.rs:1008-1020 | at most 256 entries read, and of the request names among them at most the smaller of limit and quota chosen, in name order, none of which a name left behind comes before |
| `BridgeQueue.Broker.TakeName` | src/paths.rs:1020-1045 | what one name does to queue and staging: taken and staged, refused as unreadable or badly named, or gone |
| `BridgeQueue.Broker.TakeRequests` | src/paths.rs:975-1048 | one take's effect on both directories and its results, bounded however full the queue is, serving the first names in order of those it read |
| `BridgeQueue.ChosenIsListing` | src/paths.rs:1008-1020 | what a take chooses are request files of the queue, each once |
| `BridgeRuns.TakeRequestsIsAStep` | src/paths.rs:975-1048 | a call of the take is a step of the runs below, with or without a quota refusal |
| `BridgeQueue.TakeAllEmpties` | src/paths.rs:1020-1045 | a take leaves in the queue exactly the files it did not come to, unchanged |
| `BridgeQueue.TakeReturns` | src/paths.rs:1033-1041 | a take returns, in order, each name that is a request's and can be read, with its session, key, text and staged name |
| `BridgeQueue.TakeRefuses` | src/paths.rs:1021-1044 | and a refusal for each other name, in order, by what is wrong with it |
| `BridgeQueue.LastNameDecides` | src/paths.rs:1020-1045 | a key's file is staged after a take if and only if the last name that belongs to it was still there and readable |
| `BridgeQueue.LastNameStages` | src/paths.rs:1020-1045 | what is staged for a key is the file of the last name that belongs to it, or what was staged before |
| `BridgeQueue.TakenStaysStagedIff` | src/paths.rs:1028-1032 | a request a take took is still staged after it if and only if the take does not come to its name again |
| `BridgeQueue.RecoverTakenRequests` | src/paths.rs:1128-1167 | returns, each once, every staged file whose name parses, that is not too old and can be read, with its session, key and text, and removes exactly the others |
| `BridgeQueue.Broker.Serve` | src/app/bridge.rs:413-469 | writes the answer there is now, if there is one, and finishes the request whether or not that succeeded; nothing else changes |
| `BridgeResponses.ResponseDir.Write` | src/paths.rs:1093-1109 | succeeds if and only if the directory is ready, the body within the limit and the disk takes it; at every instant its client sees the answer from before or the whole new one |
| `BridgeRuns.TakeOneKeepsInv` | src/paths.rs:1020-1045 | taking one name keeps the whole invariant of queue, staging and owed requests |
| `BridgeRuns.TakeKeepsInv` | src/paths.rs:975-1048 | so does a whole take |
| `BridgeRuns.ServeKeepsInv` | src/app/bridge.rs:413-469 | serving a request, whatever became of its answer, unstages it and no other and keeps the invariant |
| `BridgeRuns.StepKeepsInv` | src/paths.rs:975-1167 | so does every submit, litter, take, serve and recovery, and every death: around an answer, between moving a request and reading it, or part-way through a recovery |
| `BridgeRuns.RequestIsKeptIff` | src/app/bridge.rs:413-469 | over every run a submitted readable request is never queued and staged at once, is one of them exactly until its staged file is removed, and is lost if and only if that happened and no serving of it wrote an answer or left it to a saga |
| `BridgeRuns.NoRequestIsLost` | src/paths.rs:1116-1127 | so while every serving settles what it serves and nothing staged grows too old, no request is lost |
| `BridgeRuns.UnwrittenAnswerLosesRequest` | src/app/bridge.rs:464-467 | a run that loses a request, for every reply that neither writes an answer nor leaves it to a saga |
| `BridgeRuns.OversizedAnswerLosesRequest` | src/paths.rs:1096-1102 | the same with an answer over the size limit |
| `BridgeRuns.RecoveryFindsEveryStaged` | src/paths.rs:1116-1167 | recovery hands every staged request that is owed an answer and not too old back and keeps it staged, and unstages the others |
| `BridgeRuns.RecoveryFindsOnce` | src/paths.rs:1128-1167 | a broker that recovers with nothing at hand gets no request twice |
| `BridgeTexts.StepKeepsTexts` | src/paths.rs:975-1167 | every step, deaths and recoveries included, leaves queued, staged and taken requests with the text they were submitted with |
| `BridgeTexts.ServedTextIsSubmitted` | src/paths.rs:975-1167 | over every run each request at hand is one its own session submitted under that key, with exactly that text |
| `BridgeQueue.ListedTwiceIsUnstaged` | src/paths.rs:1028-1032 | a concrete take that lists a name twice and loses the staged file of a request it returns |
| `WorkspaceNames.SanitizedIsSegment` | src/paths.rs:1827-1839 | a sanitized name is empty or one path segment that is not a dot entry, holds no white space, and is a fixed point |
| `WorkspaceNames.SanitizedIsMiddle` | src/paths.rs:1827-1839 | it is the middle of the name with separators and white space as dashes; only those, dots and dashes are dropped at its ends |
| `WorkspaceNames.CleanNameIsKept` | src/paths.rs:1827-1839 | a name with nothing to replace and nothing to drop is kept |
| `WorkspaceNames.DecimalsDiffer` | src/paths.rs:1856 | different numbers print differently |
| `WorkspaceNames.DecimalReads` | src/paths.rs:1856 | a number's decimal reads as that number and has no leading zero |
| `WorkspaceNames.UniqueLinkName` | src/paths.rs:1843-1861 | the search ends for every finite set of used names: the base if free, else the least free suffix from 2, at most one more than the number of used names |
| `WorkspaceNames.UniqueIsSegment` | src/paths.rs:1843-1861 | the name found is one path segment and free |
| `WorkspaceNames.UniqueIsDetermined` | src/paths.rs:1843-1861 | it is a function of the name and the used set |
| `Workspace.NamesAreDistinctSegments` | src/workspace.rs:79-88 | the links of a workspace have pairwise distinct names, each one segment |
| `Workspace.CleanNamesAreKept` | src/paths.rs:1843-1861 | members whose names differ and need no change are linked under their own names |
| `Workspace.NamelessIsRepo` | src/paths.rs:1843-1861 | a member whose name leaves nothing is linked as `repo`, numbered when that is taken |
| `Workspace.LinksPointAtMembers` | src/workspace.rs:79-88 | every link points at its own member and nothing else in the directory changed |
| `Workspace.WorkspaceDir.Populate` | src/workspace.rs:79-88 | one link per member; it stops exactly at a name something left in the directory already bears |
| `Workspace.WorkspaceDir.RemoveLinksOnly` | src/workspace.rs:94-113 | removes a directory if and only if it is missing or holds links alone, and otherwise changes nothing |
| `Workspace.WorkspaceDir.EnsureAt` | src/workspace.rs:71-75 | a rebuild at a user's directory succeeds if and only if nothing but links was there, is then exactly the workspace, and otherwise changes nothing |
| `Workspace.WorkspaceDir.Ensure` | src/workspace.rs:59-64 | a rebuild under friring's root is exactly the workspace, whatever the directory held |
| `Workspace.WorkspaceDir.RemoveUnderRoot` | src/workspace.rs:227-240 | removes only strictly below the root |
| `Workspace.ReusableIff` | src/workspace.rs:94-113 | a directory is given up exactly when it is missing or holds no content of its own |
| `Workspace.BelowIff` | src/workspace.rs:227-240 | strictly below the root is what goes on from it by at least one component |
| `Workspace.RebuildingIsIdempotent` | src/workspace.rs:53-64 | a workspace is accepted for a rebuild, and rebuilding for the same members gives the same directory |
| `Workspace.WorkspaceIsChildOfRoot` | src/paths.rs:510-516 | whatever the session id, its workspace is a direct child of the root |
| `Workspace.CleanIdsHaveTheirOwn` | src/paths.rs:510-516 | an id with nothing to replace or drop has a workspace, of its own name |
| `Workspace.NoDirectoryIff` | src/paths.rs:510-516 | an id has none if and only if it holds nothing but what is dropped |
| `PathCompletion.LongestCommonPrefix` | src/paths.rs:1710-1731 | the longest well-formed text that every name begins with, so the cut is on a character boundary of the first |
| `PathCompletion.FloorToBoundary` | src/paths.rs:1725-1729 | the last character boundary not past the bytes agreed on |
| `PathCompletion.TextPrefixEndsOnBoundary` | src/paths.rs:1725-1730 | a text prefix of a text ends on one of its character boundaries |
| `PathCompletion.MatchesShareTyped` | src/paths.rs:1736-1752 | every candidate begins with what was typed |
| `PathCompletion.CandidatesAre` | src/paths.rs:1736-1752 | the candidates are exactly the directories whose names begin with what was typed, hidden ones only behind a dot, in the order listed |
| `PathCompletion.CompleteDirectoryPath` | src/paths.rs:1794-1817 | the typed prefix is a prefix of the common one and ends on its boundary, so the slice is in range; the suffix completes to the common prefix, and there is none exactly when it would add nothing |
| `PathCompletion.ExtendingKeepsCandidates` | src/paths.rs:1736-1752 | typing on as far as the candidates agree, without a slash, rules none of them out and lets none in |
| `PathCompletion.AcceptingKeepsCandidatesIff` | src/paths.rs:1794-1817 | accepting a completion keeps all candidates if and only if it adds no slash |
| `PathCompletion.SlashLosesCandidates` | src/paths.rs:1805-1817 | with directories `foo` and `foob`, `f` is completed to `foo/`, where neither is found |
| `PathCompletion.LongestSharedIsUnique` | src/paths.rs:1709-1731 | the longest common text does not depend on the order the directory is listed in |
| `PathCompletion.OnlyCandidateIsCompleted` | src/paths.rs:1794-1817 | a directory that is the only candidate is completed to its full name and a slash |
| `ConfigArgs.UnderRootIff` | src/agent/config_args.rs:25-47 | a path is under a root exactly when it is the root, or the root, a separator and more; an empty root has nothing under it |
| `ConfigArgs.NamesIff` | src/agent/config_args.rs:56-93 | a token names a managed file as itself, or as what follows its first `=` behind a flag, and in no other way |
| `ConfigArgs.RewriteConfigPathArgs` | src/agent/config_args.rs:56-93 | the rewritten arguments, and the managed paths asked about, in order |
| `ConfigArgs.CollectConfigPaths` | src/agent/config_args.rs:100-107 | exactly the managed values, in the order they appear |
| `ConfigArgs.ManagedInOrder` | src/agent/config_args.rs:100-107 | one path for each token that names one, in the tokens' order |
| `ConfigArgs.FlagGoesIff` | src/agent/config_args.rs:62-75 | the token before a dropped path goes with it if and only if it begins with a dash and has no `=` |
| `ConfigArgs.CollectingChangesNothing` | src/agent/config_args.rs:95-107 | asking for each path's own name leaves the arguments as they are |
| `ConfigArgs.ReplacingIsPointwise` | src/agent/config_args.rs:56-93 | when everything is replaced the length stays and each position holds its own token, rewritten only where it names a managed path |
| `ConfigArgs.DroppingLeavesSubsequence` | src/agent/config_args.rs:49-93 | when everything is dropped the result is a subsequence of the arguments |
| `ConfigArgs.DroppingLeavesNoManaged` | src/agent/config_args.rs:49-93 | it names no managed path |
| `ConfigArgs.DroppingKeepsTheRest` | src/agent/config_args.rs:49-93 | every unmanaged token that is not a bare flag is kept, in order |
| `ConfigArgs.DroppingIsIdempotent` | src/agent/config_args.rs:49-93 | dropping again drops nothing more |
| `ConfigArgs.RewriteIsDocumentedIff` | src/agent/config_args.rs:49-93 | for every mapping, the code keeps the tokens its documentation says if and only if no dropped path comes right after another managed token while the last token kept is a flag |
| `ConfigArgs.UnrelatedFlagIsLost` | src/agent/config_args.rs:49-75 | two flags and a dropped path twice: the code drops both flags, the documentation keeps the first |
| `Shell.QuotedWordIsRead` | src/shell.rs:15-29 | whatever follows a quoted word, the shell reads exactly that word first |
| `Shell.QuotingRoundTrips` | src/shell.rs:15-29 | splitting any list of quoted words joined by spaces gives back exactly that list, empty words, quotes and newlines included |
| `Shell.CommandLinesDiffer` | src/shell.rs:15-29 | different lists make different command lines |
| `Shell.BareIff` | src/shell.rs:11-27 | quoting leaves a word bare if and only if it has characters and all are safe, and else puts it in quotes |
| `Shell.BareWordIsLeftAlone` | src/shell.rs:11-27 | a word that quoting leaves as it is is not empty and stands for itself |

## Left out

- System calls, permissions, symlink races, `fdopendir`/`renameat`: a file is its bytes, a directory a map from names to entries, and a take is atomic.
- The transcript record parsers (JSON, TOML): a parser is any function of the text it was fed.
- `src/activity/mod.rs` `scan_vibe` and the other providers: the same tail behind a directory signature, or a re-read on change.
- `Tail.Tailer.TailSource`: does not model collisions of the 64-bit stat hash.
- `TailRuns.TailingIsWholeFileReading`: a file that is cut or rewritten while a pass looks at it, and in the end no shorter than what was ingested, is a rewrite nobody notices and is not admitted.
- The one-shot scan: `Tail.ScanOnce` drains one source; building the inputs of `collect_activity` around it is not modelled.
- OSC 52, OSC 8 and vt100 decoding: a pane's parser is a consumer of chunks.
- Poisoned locks: a writer that finds a cell's lock poisoned skips the store and still bumps; no thread of the model panics.
- Memory ordering: the publish-then-bump order is modelled, the acquire and release annotations that give it are not.
- The shell companion pane's own clipboard and the gated child launch (`spawn_gated`, acknowledgement records, launch markers).
- Parking of provisional egress handles between composition and launch: a launch claims what it composed. `Launch.Run` takes launches one at a time; `EgressRuns` interleaves their orders, without the panes.
- Writing to the system clipboard may fail or take another route; `PaneClipboardRuns` models which copy a tick chooses.
- `Fuzzy.ScorePositions`: does not model `i32` overflow, which needs a haystack of more than 2^30 characters.
- `Fuzzy.Match`: case folding, letter case and UTF-8 width are arbitrary functions of a character, so the first-character folding of `src/fuzzy.rs` is one instance.
- `BridgeRuns.RequestIsKeptIff`: clients do not delete or rewrite their own requests; what a saga later does with a request left to it, and returning a journaled answer to a client that submits the same key again, are not modelled.
- Names that are not UTF-8 in `CodexDiscovery`: listings hold text only.
- `CodexScan.CodexSource.Scan`: every session of a pass looks at one root; the memo does not tell roots apart.
- Tilde expansion and the splitting of a typed path into directory and prefix (`split_path_input`).
- `Workspace.WorkspaceDir.Populate`: does not model links that fail for reasons other than a taken name, nor file systems that compare names without case.
- `Workspace.WorkspaceDir.EnsureAt`: the chosen directory is not itself a symbolic link; the early check at wizard time is the same rule and not modelled again.
- Windows variants, junctions and `mklink`.
- `Shell.QuotingRoundTrips`: quoting and splitting only; a first word read as an assignment or a reserved word is the shell's next stage.
- The `ssh` and `wsl` command builders.
