# Gobstopper tooling: verified model

This project models the parts of the Gobstopper repository where several steps, files or
processes have to agree, and proves what they keep. One module, or a small group of modules,
stands for each component.

- `RenderLock`, `LockInvariant`, `LockRuns`, `LockHypotheses`, `LockRecovery`, `LockRendering`,
  `LockJoins`, `LockProgress`: the lock file of the film renderer, as a state machine over single calls
  of any number of processes. It runs, holds, joins, reclaims, releases and kills.
- `Vault`, `VaultMeaning`: the content-addressed snapshot store; a class that installs snapshots and
  the reader that checks hashes at every level.
- `Utf8`, `Recovery`, `Tail`: record splitting, search, UTF-8 paging and the tail of a transcript.
- `Splice`, `AptText`, `AptSources`, `AptRewrite`, `AptLexer`, `AptOneLine`, `AptFormats`, `AptFields`,
  `AptMeaning`, `AptPattern`: the apt source rewriter. The parser, the right-to-left splice and both
  file formats, and what they make of a text line by line.
- `Observations`, `EventLog`, `EventSchema`, `Retention`, `RetentionProofs`: the monitor's log
  rotation, its two scans of the event log and the retention totals.
- `StressLanes`, `StressPool`, `StressInvariant`, `StressRows`, `StressTime`, `StressProofs`,
  `StressStops`: the stress suite runner as a state machine over its threads and a real-valued clock, and the
  arithmetic that the receipt checker assumes about it.
- `Receipt`, `Experiment`: the receipt of a replay experiment, with a failure or an interrupt
  possible at every call.
- `SiteSections`, `SiteGuide`, `SiteProofs`, `SiteMeaning`: sections cut out of one Markdown document and
  republished in another.
- `PackArrays`, `ReleasePage`, `Limiter`: scene parameters, the release page and its identity
  record, the look-ahead limiter.
- `Wrappers`, `Json`, `Lines`: shared vocabulary.

What the programs compute step by step is a method proved against a function of its inputs, and
the results below are about that function. Where such a function follows the program's loop, a
lemma whose name ends in `Means` or `Are` says what it comes to without it, in terms of the input's
own characters, lines, fields or files. Protocols are state machines, and their results hold
for every run of steps.

Hypotheses are stated as predicates where they are used:

- `RenderLock`: random tokens do not repeat, at most one process is between the read that lets it
  unlink a lock and the unlink (`LoneRemover`), and no release command is about to unlink the lock
  of a run that still holds it (`NoReleaseOfARun`). The code enforces neither of the last two, and
  both are exactly what an exclusive lock needs: from every state that keeps the invariant but not
  one of them, steps lead to two runs that hold the lock at once (`AssumptionsAreNeeded`), and the
  protocol itself reaches such states (`TwoRemoversDoMeet`, `ReleaseDoesMeetARun`). Nothing is assumed
  about the reuse of pids: the only pid that may not be given out is that of a living process. A
  stranger under the pid of a dead owner (`StrangerUnderOwnersPid` is a run that has one) only delays
  the reclaim.
- `LockRendering`: a run renders while it holds the lock and also while it has joined one, and a
  joined run holds nothing. One render at a time therefore needs three rules more (`JoinsAssumed`):
  no session is released while a run that joined it renders, the runs handed one token render one
  after another, and no run is handed the token of a run. The code enforces none of them. With them
  one process renders at most (`OneRenderAtATime`); from every state that breaks one, steps lead to
  two processes rendering at once (`JoinRulesAreNeeded`); and the protocol reaches all three overlaps
  within the assumptions on the lock (`ReleaseUnderAJoinOverlaps`, `TwoJoinsMeet`, `JoinDoesMeetARun`).
- `Vault`: SHA-256 is a parameter that is injective on the byte strings at hand, and decoding
  undoes encoding of manifests.
- `Recovery`, `Tail`, `EventLog`: JSON decoding is an opaque partial function.
- `AptFormats`, `ReleasePage`, `SiteSections`: Python's and JavaScript's character classes are
  predicates with the few facts that the proofs use (`Sensible`, `Faithful`, `Sane`).

Where code and intention differ:

- A digest does not fix the bytes where one store has a manifest under it and another only a legacy
  object: the reader then answers with the manifest itself. `Vault.AnswersAgreeExactly` says when
  two stores agree, and `Vault.LegacyCopyAnswersDifferently` that every installed snapshot within the
  bounds gives such a pair.
- A creator killed between creating the lock file and writing its record leaves a file that nobody
  parses and nobody removes (`LockRecovery.WedgedForGood`); the protocol reaches that state
  (`LockRecovery.WedgeReached`), and an abandoned lock can come free again exactly if its record was
  written (`LockRecovery.ComesFreeIffWritten`).
- The file lock alone does not keep renders apart: runs that joined a session are not counted by it
  (`LockJoins.TwoJoinsMeet`, `LockJoins.ReleaseUnderAJoinOverlaps`), against the one render at a time
  that media/render.ts:14 promises.
- A suite that the runner admits may have taken longer than its allowance, because its time includes
  starting and cleaning up; the receipt checker then refuses the run. `StressProofs.HonestRunPasses`
  says exactly when it does not.
- `PackArrays.UnpackUndoesPack`: an object whose only key is `$chunks` with an array of at most
  128 items does not survive packing and unpacking; every other tree does. The smallest such object
  comes back as an empty array (`PackArrays.LoneChunksAreLost`).
- `ReleasePage.CheckAcceptsExactlyRendered`: a rendered page is accepted exactly when its encoded
  record contains neither `-->` nor a second identity marker. The program itself never reaches such a
  record: its digests come from SHA256SUMS, and those are always legible (`ReleasePage.CheckOfSums`).
- `Experiment.Run.Publish`: a failure while the receipt is being written leaves the receipt as it
  was handed over, comparisons included; the exit code then says failure.

## Model

| member | source | states |
|---|---|---|
| LockInvariant.StepKeepsInv | media/render.ts:274-390 | every single call of every process, and every death, keeps the invariant that ties file, records and program counters together |
| LockInvariant.ReclaimKeepsInv | media/render.ts:298-305 | unlinking a stale lock after the second read keeps the invariant when no other process is about to unlink it |
| LockInvariant.ReadKeepsInv | media/render.ts:323-348 | whatever a run, a hold or a release finds in the file, going on from it keeps the invariant |
| LockInvariant.WriteKeepsInv | media/render.ts:307-316 | writing the record, a separate step from creating the file, keeps the invariant |
| LockInvariant.DropKeepsInv | media/render.ts:376-387 | a release command's unlink keeps the invariant |
| LockRuns.MutualExclusion | media/render.ts:293-390 | in every state of every run at most one owner exists, be it a run that took the lock or a session, and the file holds that owner's record; joined runs own nothing |
| LockRuns.SessionLeavesOnlyByItsToken | media/render.ts:376-387 | a session lock is still in place in every later state, unless a release command with its token came between |
| LockRuns.SessionExcludesRuns | media/render.ts:318-329 | while a session is open no run holds the lock and no other session is open |
| LockRecovery.WedgedForGood | media/render.ts:307-316 | whatever steps follow, a lock file whose creator died before writing it stays, and nobody owns the lock |
| LockRecovery.WedgeReached | media/render.ts:307-316 | a run from the start reaches such a lock file |
| LockRecovery.ComesFreeIffWritten | media/render.ts:293-316 | in every reachable state, some steps free a lock that its run or creator left behind if and only if its record was written, and then some within the assumptions do |
| LockProgress.HoldEndsByUnlink | media/render.ts:334-337 | in every step, a run that lives on stops holding the lock only by unlinking it itself |
| LockProgress.HoldProceeds | media/render.ts:334-337 | each call of a run that holds the lock brings it one call nearer to its unlink, and no step of another process changes that |
| LockProgress.LivingRunGivesBack | media/render.ts:323-337 | however the steps of others fall between, a run that is not killed unlinks its own lock with the last of at most three more calls of its own |
| LockProgress.OwnCallsFree | media/render.ts:334-337 | from every state in which a run holds the lock and no other unlink is pending, its own calls alone lead to a state without a lock file |
| LockProgress.FreeLockIsTaken | media/render.ts:330-338 | a run or a hold that finds no file has its record in the file after three calls, and then the run holds the lock and the hold has left a session |
| LockProgress.SeekerGoesOn | media/render.ts:327-347 | before its deadline a run or a hold never gives up, whatever it finds, unless the file does not parse |
| LockProgress.DeadRunIsReclaimed | media/render.ts:298-305 | a run, a hold and a forced release each take the lock of a run that is gone out of the way with four calls of their own |
| LockProgress.LiveLockIsLeft | media/render.ts:298-301 | a session's lock and a living run's lock are left as they are, and who found one waits or, past its deadline, gives up |
| LockHypotheses.TwoRemoversBreakIt | media/render.ts:300-302 | from any state with two processes about to unlink one lock, steps lead to two runs that hold the lock at once |
| LockHypotheses.ReleasingARunBreaksIt | media/render.ts:384-385 | a release with the token of a run that holds the lock leads to two runs that hold it at once |
| LockHypotheses.AssumptionsAreNeeded | media/render.ts:293-390 | from every state that keeps the invariant but not what an exclusive lock relies on, steps lead to two runs that hold it at once |
| LockHypotheses.ReleaseDoesMeetARun | media/render.ts:376-385 | the protocol reaches a state in which a release is about to unlink the lock of a run that holds it |
| LockHypotheses.StrangerUnderOwnersPid | media/render.ts:283-299 | a run within the assumptions reaches a state in which another process lives under the pid that the lock names, and the lock has no owner |
| LockHypotheses.TwoRemoversDoMeet | media/render.ts:298-305 | the protocol reaches a state with two processes about to unlink the same lock |
| LockRendering.StepKeepsJoins | media/render.ts:274-390 | as long as joining keeps to its rules, every step keeps each joined run's lock in place and no released lock comes back |
| LockRendering.OneRenderAtATime | media/render.ts:14-15 | in every state of every run that keeps to the rules one process renders at most, under a lock of its own or one that it joined, and the file is that lock |
| LockRendering.SessionRendersJoinedRuns | media/render.ts:318-329 | while a session is open whoever renders has joined it |
| LockJoins.JoinRulesAreNeeded | media/render.ts:318-390 | from every state that breaks one of the rules of joining, steps lead to two processes rendering at once |
| LockJoins.ReleasingUnderAJoinBreaksIt | media/render.ts:376-387 | a release pending while a run that joined the lock renders leads to another run holding the lock beside it |
| LockJoins.JoiningARunBreaksIt | media/render.ts:323-329 | a run that joined the lock of another run comes to render beside that run or beside whoever takes its lock |
| LockJoins.TwoJoinsMeet | media/render.ts:323-329 | the protocol reaches a state with two runs that joined one open session |
| LockJoins.ReleaseUnderAJoinOverlaps | media/render.ts:376-387 | within all that an exclusive lock relies on, the protocol reaches a run holding the lock beside one that joined a session since released |
| LockJoins.JoinDoesMeetARun | media/render.ts:323-329 | the protocol reaches a run that joined the lock of a run that holds it |
| Vault.Read | scripts/retention-audit.py:143-193 | the reader's loop with its running bound answers as the specification `Reading` |
| Vault.Vault.Install | scripts/recovery-study/prepare.py:61-76 | the loop writes only missing chunks, then the manifest, and appends one index entry |
| Vault.ChunksJoin | scripts/recovery-study/prepare.py:63 | the 1 MiB slices joined in order are the data |
| Vault.DigestFixesBytes | scripts/retention-audit.py:143-193 | two stores with arbitrary contents that both answer one digest answer it with the same bytes |
| Vault.LegacyObjectIsTheManifest | scripts/retention-audit.py:146-154 | a store with only a legacy object under a digest answers with the manifest that another store has there |
| Vault.AnswersAgreeExactly | scripts/retention-audit.py:143-193 | two stores that both answer a digest agree if and only if both have a manifest under it, or neither has, or the only manifest there describes its own bytes |
| Vault.LegacyCopyAnswersDifferently | scripts/retention-audit.py:146-154 | for every snapshot within the bounds, the vault it was installed in reads the snapshot and a legacy copy of its manifest reads the manifest |
| Vault.InstallsReadBack | scripts/recovery-study/prepare.py:61-76 | after any sequence of installs each returned digest reads back exactly the bytes installed under it, or is refused exactly when beyond the reader's bounds |
| Vault.InstallReadsBackAnywhere | scripts/recovery-study/prepare.py:61-76 | installed into any store, damaged or not, a snapshot reads back under its digest if and only if it is within the reader's bounds and every file already under a name of its chunks holds that chunk; otherwise it is refused |
| Vault.InstallDisturbsNothing | scripts/recovery-study/prepare.py:64-71 | an install leaves every earlier snapshot's manifest and chunks in place |
| Vault.ExtensionReusesChunks | scripts/recovery-study/prepare.py:63-67 | a version that extends an installed one shares the names of all its full chunks, changes no file and adds files only for the rest |
| Vault.RecordsReadBack | scripts/retention-audit.py:167-186 | a version 2 manifest whose objects are in place reads back as its lines with newlines between them and the stated last one |
| VaultMeaning.ReadingMeans | scripts/retention-audit.py:143-193 | exactly what the reader answers: under a manifest the pieces that it names, each of the right digest and size and in the stated order with the stated newlines, within the bounds, and with the size and the digest that it gives for the whole; under a legacy object its bytes |
| Utf8.BoundaryCuts | crates/gobstopper-adapters/src/recovery.rs:146-152 | in valid UTF-8 the one-byte boundary test holds exactly where both parts are valid UTF-8 |
| Utf8.BoundaryNear | crates/gobstopper-adapters/src/recovery.rs:149-152 | the boundary loop steps back three bytes at most |
| Utf8.ValidMeans | crates/gobstopper-adapters/src/recovery.rs:145 | a byte string counts as UTF-8 exactly if it is the encoding of a sequence of Unicode scalar values |
| Recovery.Records | crates/gobstopper-adapters/src/recovery.rs:45-62 | the splitter that stops early refuses exactly when the true record count is over the limit and otherwise returns all records |
| Recovery.RecordsMean | crates/gobstopper-adapters/src/recovery.rs:45-62 | the records hold no newline, and joined by newlines, with one more if the snapshot ends in one, they are the snapshot |
| Recovery.GreedyIsMost | crates/gobstopper-adapters/src/recovery.rs:66 | no set of disjoint occurrences is larger than the match count |
| Recovery.GreedyIsReached | crates/gobstopper-adapters/src/recovery.rs:66 | some set of disjoint occurrences is as large as the match count |
| Recovery.OnlyStringsCount | crates/gobstopper-adapters/src/recovery.rs:64-71 | matches in a value are the matches in its string values, keys not counted |
| Recovery.Search | crates/gobstopper-adapters/src/recovery.rs:75-125 | the search loop returns the first hits up to the limit with the counts of all records, or the first error in order |
| Recovery.HitsExact | crates/gobstopper-adapters/src/recovery.rs:98-122 | the hits are exactly the matching records, in index order, each once with its digest, length and count |
| Recovery.UnsearchableCounts | crates/gobstopper-adapters/src/recovery.rs:99-108 | the unsearchable records are counted once each |
| Recovery.SmallerLimitListsPrefix | crates/gobstopper-adapters/src/recovery.rs:114-123 | a smaller limit lists a prefix and counts the same, and `truncated` is exact |
| Recovery.ReadRecord | crates/gobstopper-adapters/src/recovery.rs:130-164 | the method with the boundary loop returns the page of the specification, or its error |
| Recovery.PageMeans | crates/gobstopper-adapters/src/recovery.rs:130-163 | exactly when a page is read, and which: from a boundary of an existing record to the last boundary that the limit allows |
| Recovery.RefusedMeans | crates/gobstopper-adapters/src/recovery.rs:137-148 | exactly why a page is refused, in the order of the checks |
| Recovery.PageAdvances | crates/gobstopper-adapters/src/recovery.rs:149-163 | a page is whole characters within the limit, and one that is not the last holds at least the limit less three bytes and ends at a boundary |
| Recovery.PagesRebuildRecord | crates/gobstopper-adapters/src/recovery.rs:127-164 | following next_offset ends, and the pages concatenate to the rest of the record |
| Recovery.ListedRecordsCanBeRead | crates/gobstopper-adapters/src/recovery.rs:115-120 | every listed index can be read, with the digest and length that the search listed |
| Tail.TailRecords | crates/gobstopper-adapters/src/lib.rs:77-130 | the loop with its early returns gives the decoded tail of the specification |
| Tail.SmallerLimitGivesSuffix | crates/gobstopper-adapters/src/lib.rs:101-129 | if some limit succeeds every smaller positive one does, with the last of the same records, and a complete read is all of them |
| Tail.TailLinesAreWhole | crates/gobstopper-adapters/src/lib.rs:108-118 | what is decoded are whole last lines of the file, even when the cut falls inside a character |
| Tail.TailMissesNoLine | crates/gobstopper-adapters/src/lib.rs:108-116 | every line that starts after a newline inside the window is kept |
| Tail.TailMeans | crates/gobstopper-adapters/src/lib.rs:77-130 | exactly when the tail can be read, and what it is: one object for each line of the window that is not blank, all of them valid, and complete exactly if the limit covers the file |
| Splice.ReplaceUris | scripts/browser_acquisition.py:53-58 | the right-to-left loop equals replacing all spans at once |
| Splice.PositionsOrdered | scripts/browser_acquisition.py:28-50 | the spans of a fragmented text are in bounds, not empty, disjoint and in order |
| Splice.SpliceRewrites | scripts/browser_acquisition.py:53-58 | splicing the token spans of a text leaves the text with each token replaced and every other fragment as it was |
| AptSources.UriSpans | scripts/browser_acquisition.py:16-50 | the line loop with `pending`, `enabled` and `field` finds exactly the tokens of stanzas that are on, although Enabled may come after the URIs |
| AptSources.ParserFinds | scripts/browser_acquisition.py:22-50 | what the loop has found after all lines is the positions of the tokens of the whole document |
| AptFormats.RewriteSource | scripts/browser_acquisition.py:61-62 | rewriting replaces the token spans that the parser of the suffix finds, and refuses any other suffix; `AptMeaning.RewriteMeans` and `AptPattern.RewriteListMeans` say which text that is |
| AptFormats.FormatsStable | scripts/browser_acquisition.py:9-58 | in both formats no replacement moves a line, a field, a token or a stanza's state |
| AptFormats.RewriteIsStable | scripts/browser_acquisition.py:61-62 | for every text, parsing the rewritten text gives the same fragments with tokens replaced, and rewriting it again changes nothing |
| AptFormats.DisabledStanzaUntouched | scripts/browser_acquisition.py:22-26 | every line of a stanza that Enabled switches off stays as it is, wherever that field stands |
| AptFields.FieldIsNamed | scripts/browser_acquisition.py:38-40 | only `uris` and `enabled` name the fields that matter, in any mixture of small and capital letters |
| AptFields.DisablesMeans | scripts/browser_acquisition.py:23-24 | a stanza is switched off by no, false, off, without or disable in any letters, or a zero with an optional sign and 0x, and by nothing else |
| AptFields.NormalizeMeans | scripts/browser_acquisition.py:53-58 | the Azure mirror under either scheme becomes the archive over https, its final slash kept if it has one; every other token stays |
| AptFields.KindMeans | scripts/browser_acquisition.py:29-39 | whether a line is blank, a comment, a continuation or the header of a named field |
| AptFields.WordsMean | scripts/browser_acquisition.py:41-47 | the words of a value are its maximal runs of other characters than white space, up to one that starts with a number sign |
| AptFields.LineBreaksAre | scripts/browser_acquisition.py:14-28 | where the lines of either format end |
| AptFields.LinesMean | scripts/browser_acquisition.py:28 | each line ends at its only line break, a carriage return and its newline are never parted, and together the lines are the text |
| AptMeaning.KindIsField | scripts/browser_acquisition.py:28-47 | what the parser takes a line for is the field that the last header before it, without a blank line between, has opened |
| AptMeaning.RewriteMeans | scripts/browser_acquisition.py:16-58 | for every text: a line of a URIs field in a stanza without an Enabled value that switches it off has its words replaced, and every other line stays |
| AptMeaning.HeaderLine | scripts/browser_acquisition.py:36-39 | a line that begins with a name and a colon holds the value of that field from there on, be it URIs, Enabled or any other |
| AptPattern.TokenStartMeans | scripts/browser_acquisition.py:14 | the parser finds a token where, and only where, the pattern matches the line, with or without the group of options |
| AptPattern.RewriteListMeans | scripts/browser_acquisition.py:12-15 | for every text: a line that the pattern matches has its one token replaced, and every other line stays |
| AptRewrite.RewriteText | scripts/browser_acquisition.py:61-62 | parse and splice together replace the tokens of the document |
| AptRewrite.RewriteParsesAgain | scripts/browser_acquisition.py:9-62 | under any stable lexer the rewritten text parses into the rewritten fragments |
| AptRewrite.RewriteTwice | scripts/browser_acquisition.py:61-62 | under any stable lexer rewriting is idempotent |
| AptLexer.Deb822Stable | scripts/browser_acquisition.py:28-48 | stanza lines, header names, comments and words are recognised the same after any replacement of words by words |
| AptOneLine.OneLineStable | scripts/browser_acquisition.py:12-15 | the one-line pattern finds its token at the same place after the replacement, option groups included |
| Observations.Directory.Save | scripts/monitor.py:677-715 | a save cut off after any number of calls, the flush of the directory included, leaves the disk of the specification |
| Observations.RunsKeep | scripts/monitor.py:677-715 | over any run of saves and crashes both generations stay within the limit, together they are whole lines ending with the last one saved, a rotated generation is fuller than the limit less 1 MiB, and latest.json is a whole line |
| Observations.SaveAfterRun | scripts/monitor.py:677-715 | after any run a save refuses only a line that is too long, a returned one leaves its line last everywhere, and one cut off leaves latest.json as it was or holding this line |
| Observations.RefusalMeans | scripts/monitor.py:679-693 | on any disk a save refuses exactly a line that is too long and then exactly a generation that is over the limit, and what it refuses changes nothing |
| EventLog.DiagnosticsSummary | scripts/monitor.py:718-773 | the diagnostics loop counts as the specification does |
| EventLog.Inspect | scripts/monitor.py:741-760 | the reason a line is rejected, checked in the program's order |
| RetentionProofs.VerdictMatches | scripts/monitor.py:741-765 | a line is counted as oversized, or as invalid, exactly when the retention scan counts it so; one without a reason held an object |
| RetentionProofs.ReasonsCountLines | scripts/monitor.py:737-766 | each reason is counted for exactly the lines that have it, as the text, the schema, the provider and the fields of a line decide in this order |
| RetentionProofs.CountersCountLines | scripts/monitor.py:737-765 | the scanned, readable, valid, invalid and oversized records are the lines that are so |
| EventSchema.ValidIsSupported | scripts/monitor.py:404-447 | a valid event has a supported schema and provider, so neither early reason rejects one |
| EventSchema.EventRulesSound | scripts/monitor.py:404-468 | the event rules have what the scanners rely on; a valid event's tallies stay within its total |
| EventSchema.ValidMeans | scripts/monitor.py:404-447 | exactly which events are valid, by the values of their required and optional fields |
| EventSchema.SideMeans | scripts/monitor.py:379-401 | exactly which observations are valid |
| EventSchema.UnsupportedMeans | scripts/monitor.py:752-756 | exactly which objects name another schema or another provider |
| EventSchema.AppliedIsEvidence | scripts/monitor.py:450-468 | a valid event that tells of an applied compaction is evidence of its pair of snapshots, and its tally is the one it tells |
| EventSchema.EvidenceIsApplied | scripts/monitor.py:450-468 | nothing but an applied compaction without an error is evidence, and only of what both of its observations say |
| Retention.CollectLines | scripts/monitor.py:819-849 | the loop over the lines counts and collects as the specification does |
| Retention.RetentionSummary | scripts/monitor.py:776-869 | the loop over the log and its totals give the summary of the specification, for every way the log can be absent, too long, cut off or invalid; `RetentionProofs.CollectedMeans`, `AddUpSums` and `ErrorMeans` say what that is |
| RetentionProofs.CollectedMeans | scripts/monitor.py:834-849 | a pair is collected exactly if a line of the log gives it a tally: one that is within the limit, not blank and valid, is evidence of a selected source and has a tally; its value is the one that all such lines give, and none where two differ |
| RetentionProofs.UnselectedDoNotCount | scripts/monitor.py:838-841 | lines that are no evidence of a selected source can be taken out of the log without changing its availability, totals or lossy sessions |
| RetentionProofs.ErrorMeans | scripts/monitor.py:776-853 | exactly which error a log gives that cannot be used, and that it then has no totals |
| RetentionProofs.OnlyDistinctLinesCount | scripts/monitor.py:819-869 | two logs with the same set of lines have the same availability, totals and lossy sessions, whatever the order and repetition |
| RetentionProofs.ConflictsNeverRecover | scripts/monitor.py:842-849 | a pair once in conflict stays so whatever follows |
| RetentionProofs.AddUpSums | scripts/monitor.py:855-868 | saturating step by step is saturating the sum, and the lossy sessions are exactly those with a lossy pair |
| RetentionProofs.TotalsAreConsistent | scripts/monitor.py:855-868 | measured and conflicting add up to the distinct pairs; literal and lexical stay at most checks, saturation included |
| RetentionProofs.DiagnoseCounts | scripts/monitor.py:734-773 | diagnostics are partial exactly for a rejected line, the read limit or an unterminated tail; scanned is valid, invalid and oversized; the reasons sum to the last two |
| RetentionProofs.ScannersAgree | scripts/monitor.py:734-853 | retention is available exactly when diagnostics has no reason, and both count the same invalid and oversized records |
| StressLanes.LanesAreDisjoint | verify/stress/check.py:160-167 | no suite has two places in the lanes |
| StressLanes.LanesCover | verify/stress/check.py:160-167 | every suite of the inventory has a place |
| StressLanes.LaneHolds | verify/stress/check.py:150-162 | the sequence is in the first lane only, CLI suites in the second only |
| StressLanes.SortIsStable | verify/stress/check.py:162 | the sort by allowance neither loses, makes nor reorders suites of one allowance |
| StressLanes.SortDescends | verify/stress/check.py:162 | the shared suites are handed out longest allowance first |
| StressInvariant.StepKeepsBlamed | verify/stress/check.py:146-177 | in every step the failure event stays unset while all results pass, and is set only over a failed row or a raised lane |
| StressStops.NothingStarts | verify/stress/check.py:248-254 | a step that starts a child finds the failure event unset and the deadline not reached |
| StressStops.NoneBeginsAfterFailure | verify/stress/check.py:253-258 | in every schedule every child, running or gone, began no later than the moment the failure event was set |
| StressStops.NoneBeginsLate | verify/stress/check.py:249-258 | in every schedule every child began before the deadline |
| StressStops.FailedIffFault | verify/stress/check.py:146-175 | in every schedule the failure event is set or a lane has raised exactly if a suite was reported failed or too late, was called too late or raised |
| StressStops.AdmittedIffNoFault | verify/stress/check.py:276-280 | a finished run is admitted exactly if, in its schedule, every suite was called before the deadline, reported good by it, and none raised |
| StressStops.PoolOpensAfterPass | verify/stress/check.py:150-167 | in every schedule the pool opens only after the sequence has passed, and its lanes are handed out in their order |
| StressTime.StepKeepsTimed | verify/stress/check.py:164-174 | every step keeps children of one thread and of one lane one after another, and the pool's after the sequence |
| StressProofs.SequenceRunsAlone | verify/stress/check.py:150-164 | in every schedule the sequence is over before any other suite begins |
| StressProofs.RunningSequenceIsAlone | verify/stress/check.py:150-164 | while the sequence runs no other suite has been taken |
| StressProofs.CliSuitesAreSerial | verify/stress/check.py:157-167 | in every schedule two CLI suites never overlap |
| StressProofs.RunningCliIsAlone | verify/stress/check.py:157-167 | while a CLI child runs no other one does, and earlier ones had ended before it began |
| StressProofs.AtMostWorkers | verify/stress/check.py:164 | at most as many pool lanes are active at once as there are workers |
| StressProofs.RowsFollowInventory | verify/stress/check.py:176-177 | in every reached state the rows are exactly those of the suites that finished in a collected lane, one for each, in inventory order |
| StressProofs.AdmittedIffNeverFailed | verify/stress/check.py:276-280 | the rows are admitted exactly when the failure event was never set |
| StressProofs.SuiteElapsed | scripts/check_assurance.py:305-321 | the checker's loop accepts the rows exactly when every suite has one within its allowance, and collects the durations that are |
| StressProofs.AcceptedMeans | scripts/check_assurance.py:303-330 | the checker accepts times exactly if the run and every suite kept within their allowances, no suite took longer than the run, and together they took no longer than all workers could |
| StressProofs.TotalWithin | verify/stress/check.py:164-174 | the children's times add up to at most the number of workers times the time so far |
| StressProofs.HonestRunPasses | scripts/check_assurance.py:303-330 | for every schedule a receipt written after it covers the longest suite and an even share of all, and the checker accepts its times if and only if the whole run and each suite kept to their allowances and no row is missing |
| StressProofs.UnfailedRunPasses | scripts/check_assurance.py:303-330 | for every schedule that never set the failure event, the checker accepts the times if and only if the whole run and each suite kept to their allowances |
| Experiment.Run.constructor | scripts/compare_proxy_tails.py:700-727 | a new receipt is failed, empty, unchecked and without comparisons |
| Experiment.Run.VerifyBinding | scripts/compare_proxy_tails.py:579-592 | one check updates one row only: by what reading the file gave it says whether the file is stable, what its digest is now and which error the row has, an old one included |
| Experiment.Run.VerifyAll | scripts/compare_proxy_tails.py:595-597 | every bound file is read again even after an error, the error of the first row that has one is returned, and if nothing has failed all are stable |
| Experiment.Run.VerifySnapshot | scripts/compare_proxy_tails.py:600-603 | a private copy is accepted exactly if reading it gives what it was |
| Experiment.Run.RunArm | scripts/compare_proxy_tails.py:643-687 | an arm raises exactly when something in it failed; otherwise it ends complete with a report and no error after two checks of every file; its status tells whether it has a report and whether that is valid, the error it raises is the arm's, and no other arm changes |
| Experiment.Run.RunSource | scripts/compare_proxy_tails.py:642-688 | a source raises exactly when something in it failed; otherwise both arms are done, their reports have the same dialect and the same invariant metrics, and it holds the differences that added to the first report give the second |
| Receipt.Comparison | scripts/compare_proxy_tails.py:562-576 | there is a comparison exactly if the dialects and all of the twelve named metrics agree; each difference added to the value of tail 0 gives that of tail 40, and it is missing, and listed as missing, exactly where one report has no value |
| Experiment.Run.CompareArms | scripts/compare_proxy_tails.py:688 | a source whose arms are done raises `replay_arms_not_comparable` exactly if its reports are of different dialects or differ in one of the named metrics, and else holds their comparison |
| Experiment.Run.Experiment | scripts/compare_proxy_tails.py:606-697 | if it returns, the receipt is complete exactly when no call failed and no file changed, after 4n + 2 checks of every file, and otherwise has no comparison and as its error that of the first changed file; if it raises, something failed |
| Experiment.Run.Attend | scripts/compare_proxy_tails.py:785-809 | the exit code is 130 exactly after an interrupt, and the error of the receipt is the one of what was raised |
| Experiment.Run.Publish | scripts/compare_proxy_tails.py:811-825 | what is written is complete exactly when nothing failed before, and keeps the error it had before that of the failure; the exit code is 0 exactly when nothing failed at all, 1 when writing failed, and only an interrupt escapes |
| Experiment.Run.RunMain | scripts/compare_proxy_tails.py:785-825 | for every outcome of every call: a written receipt is complete only with all arms done, all files stable and all comparisons present, and otherwise has no comparison and an error |
| Receipt.LogAdds | scripts/compare_proxy_tails.py:579-597 | a check counts once for its file and spoils the log exactly when it saw a change |
| SiteSections.MarkdownSection | site/scripts/site-documents.ts:13-31 | the loop over lines with its fence state cuts out the section of the specification, or throws |
| SiteMeaning.FenceMeans | site/scripts/site-documents.ts:17-24 | a fence is open after some lines exactly if one of them opened it outside any other and none of those after it closed it, with at least three back ticks or tildes |
| SiteMeaning.SectionMeans | site/scripts/site-documents.ts:17-30 | the section is exactly the lines from the first with its title outside any fence to the next level-2 heading outside one, and there is none exactly if no line is so |
| SiteMeaning.TrimMeans | site/scripts/site-documents.ts:26-30 | what is trimmed is white space, and all of it |
| SiteGuide.TrimKeepsFences | site/scripts/site-documents.ts:26-30 | trimming the end of a text changes no fence |
| SiteGuide.ExtractedSection | site/scripts/site-documents.ts:13-31 | an extracted section begins with its heading outside any fence, has no other level-2 heading outside one, and is closed if another heading follows |
| SiteProofs.RewriteSplit | site/scripts/site-documents.ts:34-37 | rewriting links never crosses a line: it rewrites each line by itself |
| SiteMeaning.FirstLink | site/scripts/site-documents.ts:34-37 | the first link to a heading of the same file is sent to the same heading of service.md, what is before it stays, and the text after it is rewritten next |
| SiteMeaning.NoLinkAnywhere | site/scripts/site-documents.ts:34-37 | a text without such a link stays as it is |
| SiteProofs.RewrittenSection | site/scripts/site-documents.ts:34-37 | rewriting links leaves a section's heading, fences and end as they were |
| SiteProofs.GuideReturnsSection | site/scripts/site-documents.ts:34-42 | extracting a republished heading from the joined guide returns exactly the rewritten section, given closed fences and no such heading in the proxy document |
| PackArrays.PushChunks | media/render.ts:157-158 | the loop pushes the slices of 128 items |
| PackArrays.PackedIsSmall | media/render.ts:153-166 | every array anywhere in a packed tree, chunk lists included, has at most 128 items |
| PackArrays.SmallStays | media/render.ts:153-166 | packing changes a tree exactly if some array in it has more than 128 items |
| PackArrays.UnpackMeans | media/lib/stage.ts:148-159 | unpacking keeps the shape of arrays and objects, except that an object whose only key is `$chunks` over an array becomes the array of what that one holds one level down |
| PackArrays.UnpackUndoesPack | media/lib/stage.ts:148-159 | unpacking undoes packing if and only if no object has `$chunks` as its only key over an array of at most 128 items |
| PackArrays.LoneChunksAreLost | media/lib/stage.ts:148-159 | an object with an empty `$chunks` array packs to itself and unpacks to an empty array |
| PackArrays.PackThrows | media/render.ts:156-160 | packing throws exactly when some array is longer than 128 times 128 |
| ReleasePage.ParseSums | scripts/release_notes.py:104-122 | the loop accepts a file exactly when every line is well formed, no file comes twice and the files are the release archives, and then maps each to its digest |
| ReleasePage.SumMeans | scripts/release_notes.py:109-114 | a line is well formed exactly if it is a digest, a space, a space or a star, and a name without white space, and these are its digest and name |
| ReleasePage.VersionMeans | scripts/release_notes.py:50-54 | a tag has a version exactly if it is v and three numbers with dots between |
| ReleasePage.ArchivesMean | scripts/release_notes.py:99-101 | the four archives of a release |
| ReleasePage.RecordNames | scripts/release_notes.py:129-130 | the identity record holds the tag, the commit, schema 1 and the digest of each archive, each under its own name, and nothing else |
| ReleasePage.IdentityMeans | scripts/release_notes.py:125-131 | an identity comment is made exactly for a proper tag and a full commit, and is the encoded record between its markers |
| ReleasePage.SplitMeans | scripts/release_notes.py:197-213 | a body splits into a page and a record exactly if it is the page, the last start marker, the text of an object with schema 1 and the end |
| ReleasePage.SplitUndoesRender | scripts/release_notes.py:193-213 | splitting a rendered body gives back its notes and its record, markers in the notes or not |
| ReleasePage.SplitNeedsLegible | scripts/release_notes.py:197-213 | a page splits at its notes only if its record hides neither its end nor a second start |
| ReleasePage.CheckAcceptsExactlyRendered | scripts/release_notes.py:216-224 | the check accepts a body exactly when it is the rendered one and its record is legible |
| ReleasePage.CheckOfSums | scripts/release_notes.py:216-224 | for digests read from SHA256SUMS the check accepts exactly the rendered body |
| Limiter.SmoothedBelowRaw | media/score.py:236-239 | the smoothed gain is positive and never exceeds the raw gain, at the clamped edges too |
| Limiter.GainIsSmoothed | media/score.py:236-239 | the gain lies in (0, 1], below the raw gain, and the final minimum changes nothing |
| Limiter.LimitHolds | media/score.py:226-240 | no sample of the output exceeds the ceiling on any channel |
| Limiter.GainMeans | media/score.py:235-239 | the gain of a frame is the mean over the second window of held gains, each the least of those that would bring the frames of its first window to the ceiling |
| Limiter.LimitScales | media/score.py:239-240 | every sample of the output is that of the input times the gain of its frame, on all channels |
| Limiter.UnchangedIffQuiet | media/score.py:235-240 | the gain is 1 exactly when the ceiling is at least the floor of the level and nothing in the combined windows is louder than the ceiling, and then the frame is unchanged |

## Left out

- The Rust engine, proxy, strategies, operation journal and Rust vault, whose snapshot reads enter `Recovery` as a parameter.
- SHA-256, JSON text, Unicode tables and regular expressions beyond the few patterns written out.
- File modes, symbolic links, what fsync makes durable, device and inode fingerprints, and the reader's custody lock.
- Torn writes: a call either happens whole or not at all, so a half-written log line is not modelled.
- `lock status`, the lane, job and start time in lock records, and log messages.
- Wall-clock deadlines of the render lock: whether one has passed is chosen freely at each step.
- `record_count` and the strategy label in the snapshot index, and the order of `partial_reasons`.
- The apt mirror plan and the configuration checks around the rewriter.
- The text of the visible release page and `changelog_section`: the page is any function of the release.
- The line splitting of SHA256SUMS: `ReleasePage.ParseSums` starts from the lines.
- Subprocesses, pipes and memory accounting of the suite runner: a child starts, ends or raises at any time; the checks of the deadline and the failure event and the start of the child are one step; exceptions that `run_suites` does not catch end the program and leave no rows.
- Floating point: suite times and the limiter are in exact arithmetic, and empty signals are left out because they have no samples.
- The replay report's own field checks, hashes of executed copies and the fixed text of the experiment receipt.
- Interrupts inside a single assignment of the experiment: they arrive at calls and between them.
- Heading identifiers, HTML and link resolution of the site.
