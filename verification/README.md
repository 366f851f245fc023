# Proved properties of an agent harness

This project models the parts of an agent harness whose correctness rests on algorithms and protocols, and proves what
those parts promise. It is written in Dafny 4.11; `dafny verify dfyconfig.toml` checks it.

**Compaction** (`Compaction*.dfy`). A request that grows too long loses response bodies and then whole conversation
turns, and both decisions are recorded as multisets of fingerprints that are applied again to later, longer requests.
The difficulty is that calls and responses without IDs are paired by occurrence number, so every dropped turn renumbers
the rest. `CompactionPairs` replaces the table of locations by a closed form, `CompactionTurns` shows that pairing and
verdicts survive every drop, `CompactionSticky` that re-application reproduces the earlier drops exactly when no dropped
ID is used again. `CompactionChoice` and `CompactionDecisions` say which bodies are elided, and `CompactionRuns` lifts
all of this to whole runs and to every sequence of runs.

**Bounded output** (`Output*.dfy`). A simple form truncates a whole input line by line; a streaming form keeps a head
sample and a ring buffer. `OutputLimits` shows that limits hold and edges stay apart, `OutputMaximal` that neither edge
could keep more, `OutputEdges` what a line limit alone keeps, and `OutputByteForm` reduces byte-only truncation to two
cuts. `OutputNotice` reads the truncated text back, and `OutputWriter` shows that the streaming form equals the simple
one for every chunking. `OutputDisabled` says when non-positive limits are really off. `OutputBudget` is the
per-session budget of grants.

**The session store** (`Store*.dfy`). Transcripts are the commit record; journals of shared state are derived from them
and repaired; create and delete use marker files; orders come from one sequence per app. `StoreJournal` and
`StoreJournalFile` treat journal repair down to the byte at which it stops, `StoreTranscript` an append that is cut off,
`StoreReading` which files are accepted, `StoreProjection` last-writer-wins state, `StoreSession` the handle a caller
holds, `StoreHandle` calls through it with the journals they repair, `StoreMirror` when it shows what a replay gives,
`StoreSegments` file names. `StoreProtocol` is the whole protocol as a state machine with crashes; `StoreInvariant` and
`StoreSteps` hold its invariant, `StoreSafety` what every run guarantees, and `StoreOrders` and `StoreLostOrder` what
goes wrong when callers append to a session whose deletion is pending.

**Language servers** (`Lsp*.dfy`). Lifecycles of lazily started servers, matching of published diagnostics to document
versions, both in every interleaving of their locked sections, and conversion between byte offsets and positions.

**Call IDs** (`CallIds.dfy`). Repair of missing and repeated call IDs, and the matching of tool messages to calls.

## Where the code differs from what is promised

- A negative line limit is described as disabled, as every non-positive limit is. In the code it acts so exactly when
  the byte limit truncates nothing or is too small for anything to fit (`OutputDisabled.NegativeLineLimitIff`, on text
  `OutputDisabled.NegativeLineLimitOnText`); otherwise nothing at all is kept. Five letters, byte limit four and line
  limit minus one show it (`OutputDisabled.NegativeLineLimitWitness`). Negative byte and line-length limits are
  disabled; the streaming form refuses a negative byte limit (`OutputWriter.NewWriter`).
- Deleting a session again after an interrupted delete does not scan again. An event appended between the two is lost:
  `StoreSafety.AppendSafeIff` shows that an append is safe exactly when no delete marker of its session is pending.
  `StoreOrders.AppendOrderIff` shows that under the same condition, and only then, orders stay one to one with
  identities: otherwise a crash, an old scan whose repair fails half way and a lost sequence file can give the event's
  order to a second record. `StoreLostOrder.OrderReused` reaches such a state from the empty store. The run theorems are
  therefore about runs in which callers avoid such appends, and need no other assumption.
- A handle is said to show what a replay from disk gives. It does after every successful call, unless an event whose
  call failed after committing it is still outstanding or was retried only after a later event
  (`StoreMirror.LateRetry`), or the handle was given only recent events and replays an older one
  (`StoreMirror.RecentEventsOnly`). Right after a call that fails after committing, the next read repairs the journals
  and shows the event's session, app and user keys, which the handle lacks (`StoreMirror.MissedAppKey`): the two agree
  exactly when the handle already has all of these keys and values. `StoreMirror.QuietCallMirrorsIff` is this condition
  for one call, `StoreMirror.CallMirrorsIff` the same when other sessions write too, `StoreMirror.SeenInTurnIff` the
  condition for the events of a run, and `StoreMirror.RunAppends` proves all of it about the methods.
- Re-applied drops are the earlier drops exactly when the appended contents use no ID of a dropped turn again
  (`CompactionSticky.StickyReplaysIff`).
- A handle clears shared keys only when something follows the prefix. It shows the replayed state exactly when no bare
  prefix key disappears from the shared state, which cannot happen while journals only grow
  (`StoreHandle.GrowingJournalsKeepKeys`).
- A position at the end of a document that ends in a lone CR names no offset, and that is the only exception
  (`LspPosition.OffsetRoundTrip`, `LspPosition.LoneCrAtEnd`). An unsupported encoding is still accepted in column 0
  (`LspPosition.UnsupportedEncoding`).
- Budget reservation IDs are said to be unique. After 2^64 of them one can repeat while its first grant is outstanding
  (`OutputBudget.ReserveBalanced` is exact, `OutputBudget.WrapLeaksOneByte` gives the numbers).
- The branch of a resumed delete for a marker of another incarnation is never taken (`StoreSteps.MarkersMatch`).

## Model

| member | source | states |
|---|---|---|
| CompactionContents.SameShapeMarks | compaction/policy.go:421-445 | erasing response bodies, as the turn fingerprint does, leaves every call and response mark, and so the whole pairing, as it was |
| CompactionPairs.PairTable.RecordPart | compaction/policy.go:561-577 | recording a part extends the location table by exactly the part's calls and responses, in visiting order, unnamed ones under their next occurrence number |
| CompactionPairs.CollectPairLocations | compaction/policy.go:546-559 | the table lists, for every key and side, the content indices of its occurrences over the whole history |
| CompactionPairs.ContainedIffClosed | compaction/policy.go:579-597 | the table's verdict on a range, key by key with renumbered occurrences, holds exactly when no pair straddles the range's border |
| CompactionPairs.PairsContained | compaction/policy.go:536-544 | returns true exactly when dropping the range splits no call from its response |
| CompactionPairs.MatchingSurvivesDrop | compaction/policy.go:546-619 | after a closed range is cut out, every surviving mark keeps the partners it had, although occurrence numbers are counted again |
| CompactionPairs.ClosedAfterEarlierDrop | compaction/policy.go:536-544 | a later range is closed exactly when it was before an earlier closed range disappeared |
| CompactionPairs.ClosedBeforeLaterDrop | compaction/policy.go:536-544 | an earlier range is closed exactly when it was before a later closed range disappeared |
| CompactionPairs.ClosedAppend | compaction/policy.go:536-619 | appending marks keeps a closed range closed exactly when none of its IDs is used again, and never closes an open one |
| CompactionTurns.CutKeepsMatching | compaction/policy.go:151-173 | dropping a droppable turn pairs every surviving call and response exactly as before, unnamed ones included |
| CompactionTurns.DroppableBefore | compaction/policy.go:479-497 | turns before a dropped turn keep their start and their verdict |
| CompactionTurns.DroppableAfter | compaction/policy.go:479-497 | turns behind a dropped turn move forward and keep their verdict |
| CompactionTurns.DropFirstIsScan | compaction/policy.go:151-173 | dropping the first droppable turn again and again, with all pairing recomputed each time, equals one scan that skips the first n droppable turns of the original history |
| CompactionTurns.CutsSpare | compaction/policy.go:475-534 | content zero, the recent window, the turn in progress and every content with a preserved tool survive any number of drops |
| CompactionTurns.CutsShape | compaction/policy.go:421-445 | the same cuts work on any history that differs in response bodies only, so elided bodies do not disturb later drops |
| CompactionSticky.DroppableAppend | compaction/policy.go:479-544 | a droppable turn of the old history stays droppable after an append exactly when the appended contents use none of its IDs again |
| CompactionSticky.StickyReplays | compaction/policy.go:447-473 | the recorded fingerprints, re-applied greedily to the longer history, remove exactly the turns of the first run, repeated fingerprints included |
| CompactionSticky.StickyReplaysIff | compaction/policy.go:447-497 | the same turns are dropped again if and only if the appended contents use none of their IDs again |
| CompactionEstimate.EstimateRequest | compaction/estimate.go:52-81 | the counting loops over contents, system instruction and tool declarations compute the closed-form estimate: framing constants plus encoded length over four, rounded up |
| CompactionEstimate.OverheadAppend | compaction/estimate.go:83-114 | framing tokens of a spliced history are the sum over its pieces |
| CompactionEstimate.ContentWeighs | compaction/estimate.go:15-24 | a content weighs 4 tokens and a missing one none |
| CompactionEstimate.PartWeighs | compaction/estimate.go:83-114 | a part weighs 1 token, every call or response in it 8 more, every inline binary 16 more |
| CompactionEstimate.SetupWeighs | compaction/estimate.go:63-78 | the system instruction weighs what a content weighs, every declared function 12 tokens |
| CompactionEstimate.TokensWeigh | compaction/estimate.go:52-81 | on top of the framing, four bytes of the encoded request make a token, the last one begun |
| CompactionElision.EligibleResponseCandidates | compaction/policy.go:215-297 | lists every filled response slot outside content zero and the recent window, in order, with its name and key |
| CompactionElision.ElideFromSound | compaction/policy.go:120-149 | greedy elision keeps the running estimate exact, lowers it by at least one token per elision, touches response bodies only and never a preserved tool's |
| CompactionElision.ReElideFromSound | compaction/policy.go:349-388 | re-applied elisions keep the estimate exact, lower it each time, touch unpreserved response bodies only, and use every recorded key at most as often as recorded |
| CompactionChoice.RangeListed | compaction/policy.go:215-297 | every response body of the range that is not yet the marker is a candidate, once, in visiting order, with its name, its key and its size |
| CompactionDecisions.ElidedElides | compaction/policy.go:120-149 | after eliding, every open body is replaced or kept by its size, by the estimate of the request as it is when the body is visited, and by whether replacing it lowers that estimate; no other body changes |
| CompactionDecisions.ElidedKeys | compaction/policy.go:143 | the recorded keys are those of the changed places, in visiting order: the response's ID, or name and body when it has none |
| CompactionDecisions.ReElidedElidesAgain | compaction/policy.go:349-388 | the same for recorded elisions: a key is used up by the earliest responses that carry it |
| CompactionDecisions.StillAbove | compaction/policy.go:125-147 | when the estimate is still above the target after eliding, every unpreserved body of at least the minimum is now the marker, or replacing it when visited would not have lowered the estimate |
| CompactionPolicy.CompleteTurns | compaction/policy.go:390-445 | lists every complete turn once and in order, with its fingerprint; the last prompt turn is not complete |
| CompactionPolicy.NextDroppableTurn | compaction/policy.go:479-497 | finds the first droppable turn from a position on, and none only when there is none |
| CompactionPolicy.ApplyStickyDrops | compaction/policy.go:447-473 | the splice loop computes the greedy re-application of the owed multiset, and terminates |
| CompactionPolicy.NextOwedTurn | compaction/policy.go:455-470 | walks the droppable turns to the first owed one |
| CompactionPolicy.ElideResponses | compaction/policy.go:120-149 | place by place in visiting order, an unpreserved body past content zero and before the recent window is replaced exactly when it has at least the minimum number of tokens, the calibrated estimate at that moment is above the target, and replacing it lowers the estimate; the keys of the replaced bodies are appended in that order |
| CompactionPolicy.ApplyStickyElisions | compaction/policy.go:349-388 | place by place in visiting order, a body is replaced again exactly when its key is recorded more often than earlier places have used it up and replacing it lowers the estimate |
| CompactionPolicy.DropCompleteTurns | compaction/policy.go:151-173 | drops first droppable turns until the target is met or none is left, recording their fingerprints |
| CompactionPolicy.DropCountStops | compaction/policy.go:151-173 | afterwards the target is met or nothing droppable is left |
| CompactionPolicy.ApplyPolicy | compaction/policy.go:33-78 | one run: request, durable lists and result are those of the functional step |
| CompactionRuns.RunThins | compaction/policy.go:33-173 | a run from any memory yields the original contents minus whole complete turns, with only response bodies changed; content zero and the recent window are untouched |
| CompactionRuns.ThinnedKeeps | compaction/policy.go:479-534 | the last prompt turn stays as a turn and so does every content with a preserved tool |
| CompactionRuns.ExhaustedMeansNothingLeft | compaction/policy.go:57-76 | a triggered run ends at the target, or reports exhausted and no droppable turn remains |
| CompactionRuns.ExhaustedLeaves | compaction/policy.go:479-597 | after an exhausted run every complete turn that ends before the recent window holds a preserved tool or shares a pair with the contents around it |
| CompactionRuns.DropsWhileAbove | compaction/policy.go:151-173 | every turn was dropped while the calibrated estimate was above the target |
| CompactionRuns.RunDecides | compaction/policy.go:33-78 | one run from any memory: what was recorded is dropped and elided again; below the trigger that is all; otherwise bodies are elided by the rule above, turns are dropped only while above the target, and the memory grows by exactly the keys of the changed places and the fingerprints of the dropped turns |
| CompactionRuns.RunOwes | compaction/policy.go:33-173 | after a run the memory owes exactly the first turns of the same history and the request is that history without them |
| CompactionRuns.SessionStaysSticky | compaction/policy.go:33-101 | over every sequence of requests on a growing history, each with its own model, system instruction and tools under one compaction configuration, every round drops again the turns the earlier rounds dropped |
| OutputCuts.HeadCutIs | outputlimit/policy.go:485-500 | the head cut is the greatest safe cut within the limit: on a UTF-8 boundary and not between CR and LF |
| OutputCuts.TailCutIs | outputlimit/policy.go:502-517 | the tail cut is the least safe cut that leaves at most the limit |
| OutputCuts.CutsOfValid | outputlimit/policy.go:485-517 | on valid UTF-8 a cut costs at most three bytes and leaves valid pieces |
| OutputByteForm.LinesFromRaw | outputlimit/policy.go:95-129 | put together again, the split lines are the input, when no line starts inside a rune |
| OutputCuts.InwardHead | outputlimit/policy.go:485-500 | the backing-up loop computes the head cut |
| OutputCuts.InwardTail | outputlimit/policy.go:502-517 | the skipping loop computes the tail cut |
| OutputPolicy.SplitLines | outputlimit/policy.go:95-129 | the byte loop computes the lines with their bodies and terminators |
| OutputPolicy.PrepareCompleteLine | outputlimit/policy.go:131-159 | a long line's body is replaced by its two cuts and a marker |
| OutputPolicy.SelectionBudget.Consume | outputlimit/policy.go:296-311 | byte and line allowances after taking a line part, a line already occupied being free |
| OutputPolicy.SelectPrefixWithin | outputlimit/policy.go:313-337 | the consuming loop computes the head selection, which `OutputMaximal.HeadIsFull` shows to stop only where more would break its allowance |
| OutputPolicy.SelectSuffixWithin | outputlimit/policy.go:343-372 | the reversed loop and the swap at its end compute the tail selection |
| OutputPolicy.SelectOuterEdges | outputlimit/policy.go:203-237 | the three selections that hand unused allowance across compute the two edges |
| OutputPolicy.OuterEdgesValid | outputlimit/policy.go:402-421 | every selection lies within its line, so the panic in the renderer cannot happen |
| OutputPolicy.Apply | outputlimit/policy.go:69-83 | text and report of the functional form, whose text `OutputNotice.AppliedTextTells` reads back and whose edges are exact (`OutputEdges.LinesOnlyText`) and maximal (`OutputMaximal`) |
| OutputLimits.TruncationRespectsLimits | outputlimit/policy.go:203-280 | for every policy, truncated edges never overlap or meet, and kept bytes and distinct kept lines respect every enabled limit |
| OutputLimits.PreparedRespectsLimit | outputlimit/policy.go:131-159 | line elision keeps the line limit and cuts the body only: what is left starts and ends as the body does |
| OutputEdges.LinesOnly | outputlimit/policy.go:203-237 | with only a line limit the head is the head share of the limit in whole lines, the tail the rest of it in whole lines, and exactly as many lines as allowed are kept |
| OutputEdges.LinesOnlyText | outputlimit/policy.go:69-83 | as texts: the first so many lines of the input, line breaks included, and the last so many |
| OutputMaximal.HeadIsFull | outputlimit/policy.go:313-337 | a head selection stops only where any later safe cut would break its byte or line allowance |
| OutputMaximal.TailIsFull | outputlimit/policy.go:343-372 | a tail selection stops only where any earlier safe cut would break its allowance |
| OutputMaximal.HeadIsMaximal | outputlimit/policy.go:203-237 | for every line limit that is not negative, no later safe cut of the line at which the head stopped keeps the enabled limits, the tail as it is |
| OutputMaximal.TailIsMaximal | outputlimit/policy.go:203-237 | the same at the tail: no earlier safe cut keeps the enabled limits, the head as it is |
| OutputNotice.MarkerReads | outputlimit/policy.go:50-57 | an independent reader takes the reason and the four numbers back from the notice, in that order |
| OutputNotice.AppliedTextTells | outputlimit/policy.go:239-280 | a truncated text is the kept start, closed by a line break, one notice that reads back as the report's reason and numbers, and the kept end or else the input's own last line break; without line elision the two are the start and the end of the input |
| OutputNotice.TruncatedWhen | outputlimit/policy.go:161-201 | without line elision an input is truncated for its bytes when it exceeds an enabled byte limit, else for its lines when it exceeds an enabled line limit, and is returned unchanged otherwise |
| OutputNotice.LongLineTells | outputlimit/policy.go:131-159 | a line over the limit becomes the start and the end of its body around a notice that reads back as its size and what is kept |
| OutputDisabled.NegativeLineLimitIff | outputlimit/policy.go:18-19 | for every policy and input, a negative line limit acts as disabled if and only if the byte limit is off, truncates nothing, or is so small that nothing fits it anyway |
| OutputDisabled.NegativeLineLimitKeepsAllOrNothing | outputlimit/policy.go:282-294 | with a negative line limit an input either fits the byte limit and is kept whole, or nothing at all is kept |
| OutputDisabled.NegativeLineLimitOnText | outputlimit/policy.go:18-19 | on valid UTF-8 with a byte limit of at least four, a negative line limit acts as disabled exactly when the text fits the byte limit |
| OutputDisabled.NegativeLineLimitWitness | outputlimit/policy.go:282-294 | five letters, byte limit four, line limit minus one: nothing is kept, where four letters would be with the line limit off |
| OutputDisabled.NegativeLineLengthIsDisabled | outputlimit/policy.go:18-19 | a negative line-length limit acts as zero on every input |
| OutputDisabled.NegativeByteLimitIsDisabled | outputlimit/policy.go:18-19 | a negative byte limit acts as zero on every input |
| OutputByteForm.AppliedIsStreamed | outputlimit/policy.go:161-280 | with only a byte limit, line-wise selection equals two cuts of the whole input, text and report |
| OutputByteForm.TwoCutsOfValid | outputlimit/policy.go:485-517 | valid UTF-8 keeps between MaxBytes-3 and MaxBytes bytes, and no rune and no CRLF is cut |
| OutputByteForm.KeptBytesOfValid | outputlimit/policy.go:239-280 | the same bounds for the reported kept bytes |
| OutputWriter.Writer.Write | outputlimit/writer.go:50-77 | after any chunk the head sample, the ring tail and the counters describe the longer stream |
| OutputWriter.Writer.AppendTail | outputlimit/writer.go:79-92 | the ring holds the last bytes of the stream in order |
| OutputWriter.Writer.OrderedTail | outputlimit/writer.go:159-167 | unrolls the ring into stream order |
| OutputWriter.Writer.TailWithin | outputlimit/writer.go:145-155 | the tail's cut made on the sample and one look-behind byte |
| OutputWriter.Writer.String | outputlimit/writer.go:94-143 | text and report assembled from the samples, a text that `OutputNotice.SampledTextTells` reads back |
| OutputNotice.SampledTextTells | outputlimit/writer.go:94-143 | for every stream over the limit the streaming text is a start of the stream, one notice that reads back as the report, and an end of the stream, as many bytes as reported and no more than the limit |
| OutputWriter.Writer.BuffersBounded | outputlimit/writer.go:50-92 | head and tail together hold at most twice the byte limit, the look-ahead apart |
| OutputWriter.HeadCutLocal | outputlimit/writer.go:50-77 | any sample that reaches past the limit decides the head cut as the whole stream does |
| OutputWriter.FromSamplesIsApplied | outputlimit/writer.go:94-143 | what is assembled from the samples equals the whole-input form on every stream whose lines start no rune in the middle |
| OutputWriter.WriterMatchesApply | outputlimit/writer.go:94-143 | the streaming form returns the text and report of the whole-input form for every valid UTF-8 stream |
| OutputWriter.NewWriter | outputlimit/writer.go:34-47 | a new writer has an empty stream; a negative byte limit is refused |
| OutputWriter.WriteChunks | outputlimit/writer.go:34-154 | the same for every way of cutting the stream into chunks; a negative byte limit renders nothing |
| OutputBudget.Budget.Reserve | outputlimit/budget.go:49-79 | the grant is half of what remains, at least the minimum, at most the remainder and the request; no other session changes |
| OutputBudget.Budget.Consume | outputlimit/budget.go:82-109 | known, unknown and stale IDs settle as specified; no other session changes |
| OutputBudget.Budget.Reset | outputlimit/budget.go:112-118 | the session's account is as new; no other session changes |
| OutputBudget.ReserveBalanced | outputlimit/budget.go:49-79 | reserved stays the sum of the pending grants if and only if the new ID is not already outstanding; used plus reserved stays within the limit |
| OutputBudget.GrantIsLargest | outputlimit/budget.go:49-79 | a reservation takes the largest amount that is at most the request, at most what is left, and past 2000 bytes at most half of that; nothing when there is none |
| OutputBudget.ConsumeBalanced | outputlimit/budget.go:82-109 | settling keeps the books balanced and within the limit, and charges at most what was emitted and at most the grant |
| OutputBudget.ConsumeCharges | outputlimit/budget.go:82-109 | settling an outstanding grant releases it and charges exactly what was emitted, at most the grant, and nothing for a negative count |
| OutputBudget.ConsumeUnknown | outputlimit/budget.go:82-109 | without an outstanding grant exactly what was emitted is charged, as far as that much is left |
| OutputBudget.BooksStaySound | outputlimit/budget.go:49-118 | over every sequence of operations that issues fewer than 2^64 reservations every session's books stay balanced and within the limit |
| OutputBudget.WrapLeaks | outputlimit/budget.go:65-78 | when the 64-bit counter wraps onto an outstanding ID, the older grant is never released |
| OutputBudget.WrapLeaksOneByte | outputlimit/budget.go:65-78 | the first and the 2^64th reservation share ID 1, and after settling it one byte stays reserved for good |
| StoreState.SplitState | sessionstore/state.go:24-43 | the loop separates a delta into exactly its session, app and user keys, prefixes removed, temporary keys dropped |
| StoreState.WithoutTemporaryState | sessionstore/state.go:62-73 | keeps exactly the keys without the temporary prefix |
| StoreState.MergeState | sessionstore/state.go:77-88 | the public view: session keys, and shared keys under their prefix, shared ones winning |
| StoreState.MergeOfSplit | sessionstore/state.go:24-88 | splitting and merging again loses exactly the temporary keys |
| StoreState.SplitOfMerge | sessionstore/state.go:24-88 | the scopes of a merged view are the scopes it was merged from |
| StoreState.SplitKeys | sessionstore/state.go:24-43 | key by key: an app key of a split delta is there exactly when the delta has it under `app:`, a user key under `user:`, a session key when it has none of the three prefixes |
| StoreState.MergedKeys | sessionstore/state.go:77-88 | key by key: the merged view has every app key under `app:`, every user key under `user:`, and all other keys as the session has them |
| StoreJournal.JournalIndex.Add | sessionstore/store.go:1013-1022 | accepts a record exactly when it contradicts none, and adds it once |
| StoreJournal.JournalAdditions | sessionstore/store.go:1913-1931 | refuses exactly when two entries among those there and those due share an ID or an order but differ; otherwise journal and additions hold exactly the journal's entries and those due: every record's app delta for the app, for a user's journal the user deltas of that user's records only |
| StoreJournal.AdditionsSomeIff | sessionstore/store.go:1949-1974 | a repair is refused exactly when journal and scan together are contradictory in ID, order or delta |
| StoreJournal.AdditionsComplete | sessionstore/store.go:1913-1931 | journal plus additions hold the journal's and the scan's entries, each logical record once |
| StoreJournal.AdditionsRestart | sessionstore/store.go:1913-1945 | stopped after any number of entries and run again, a repair appends exactly the rest |
| StoreJournal.AdditionsAreDue | sessionstore/store.go:1913-1931 | a repaired journal holds exactly what it held and what is due from the scan's own records |
| StoreJournal.AdditionsOrdered | sessionstore/store.go:1913-1931 | from an ordered scan entries are added in order |
| StoreJournalFile.JournalFile.TruncateTorn | sessionstore/log.go:74-93 | an unterminated last line is cut off and nothing else |
| StoreJournalFile.JournalFile.Load | sessionstore/store.go:1986-2029 | truncates on disk, then decodes every complete line, refusing unreadable lines and repeated IDs or orders |
| StoreJournalFile.JournalFile.AppendEntries | sessionstore/store.go:1933-1945 | entries go to the file line by line; a full disk leaves any byte prefix of them |
| StoreJournalFile.JournalFile.Repair | sessionstore/store.go:1896-1911 | load, additions and append in one call that the disk may stop anywhere; the returned journal is ordered |
| StoreJournalFile.RepairRestarts | sessionstore/store.go:1896-1945 | stopped after any number of bytes, inside an entry too, and run again, a repair ends with the very file of an uninterrupted one |
| StoreJournalFile.RepairRunsConverge | sessionstore/store.go:1896-1945 | the same for any number of stops |
| StoreJournalFile.FinishedIsComplete | sessionstore/store.go:1896-2029 | a finished repair reads back as journal and scan together without duplicates, and another run writes nothing |
| StoreProjection.Scope.ApplyOrderedDelta | sessionstore/store.go:1749-1758 | key by key the delta is applied where its order is not older |
| StoreProjection.ProjectJournal | sessionstore/store.go:2049-2058 | the projection of the sorted journal equals the projection in any order |
| StoreProjection.AllAppliedIsLww | sessionstore/store.go:1749-1758 | deltas applied in any arrival order give every key the value of the highest order that wrote it |
| StoreProjection.ProjectionOfSet | sessionstore/store.go:1749-1758 | shared state is a function of the set of records: neither arrangement nor repetition matters |
| StoreProjection.MergeKnownSharedRecords | sessionstore/store.go:1090-1116 | merging pending records into the cached projection is refused on a contradiction and otherwise applies exactly the new ones |
| StoreProjection.MergeIsProjection | sessionstore/store.go:1090-1116 | the merge succeeds exactly when all records agree, and then equals projecting their union |
| StoreInventory.RecordInventory.Add | sessionstore/store.go:1215-1233 | reserving the same record again is accepted; sharing only its ID or only its order is refused |
| StoreInventory.RecordInventory.Remove | sessionstore/store.go:1235-1243 | forgets exactly the given reservation and never lowers the maximum |
| StoreInventory.RecordInventory.Reserve | sessionstore/store.go:1563-1591 | the order handed out is above every order known and above the sequence file, missing or unreadable included; past the largest 64-bit order it is refused; a refusal or a failed write leaves the stated state |
| StoreInvariant.InventoryCovers | sessionstore/store.go:1367-1404 | an inventory built from the cache, the user journals, the transcripts and the create markers bounds every copy, the app journal's too |
| StoreInvariant.ReservedIsFresh | sessionstore/store.go:1563-1591 | a reserved record shares neither ID nor order with any copy anywhere, whatever the sequence file says |
| StoreSteps.InvStep | sessionstore/store.go:225-636 | every step of create, append, delete, scan, repair and crash keeps the invariant, when no event goes to a session with a pending deletion |
| StoreSteps.MarkersMatch | sessionstore/store.go:585-636 | a delete marker beside a transcript always names that transcript's incarnation |
| StoreSafety.OrderIsIdentity | sessionstore/store.go:1367-1613 | in every state of every such run, two stored copies share an order exactly when they share a logical identity |
| StoreSafety.NothingLost | sessionstore/store.go:585-636 | once in a transcript, a record's app and user deltas are in a live transcript or in their journals in every later state |
| StoreSafety.UserJournalsAreOwn | sessionstore/store.go:1832-1868 | in every state of every run a user's journal holds entries of that user only |
| StoreSafety.EntriesTellRecords | sessionstore/store.go:1913-1931 | in every state of every run an app journal entry carries the app delta and a user journal entry its own user's delta of the transcript record with its identity |
| StoreSafety.CreatedAsAsked | sessionstore/store.go:225-330 | what a create reserves carries the app and the user delta it was given, under the session's own user |
| StoreSafety.AppendedAsAsked | sessionstore/store.go:817-894 | what an append reserves carries the app and the user delta it was given, under the session's own user and incarnation |
| StoreSafety.TranscriptsStayWhole | sessionstore/store.go:817-894 | a transcript is never garbled and holds one record per event ID of its incarnation |
| StoreSafety.RepairNeverRefused | sessionstore/store.go:1913-1974 | neither journal ever contradicts what a scan has read, even a scan older than later deletions |
| StoreSafety.AppendSafeIff | sessionstore/store.go:585-601 | an append loses nothing whatever follows if and only if no delete marker of its session is pending |
| StoreOrders.AppendOrderIff | sessionstore/store.go:585-601 | orders stay one to one with identities, whatever follows an append, if and only if no delete marker of its session is pending |
| StoreOrders.OrderGivenTwice | sessionstore/store.go:585-601 | after any append to a session whose deletion is pending, a run of ordinary steps gives the event's order to a second record |
| StoreLostOrder.OrderReused | sessionstore/store.go:585-601 | from the empty store a careful run reaches a pending deletion, and one append there leads to one order on two records |
| StoreTranscript.SessionLogParser.ParseLine | sessionstore/log.go:122-206 | one line changes the parsed log as specified, or is corrupt |
| StoreTranscript.SessionLogParser.Parse | sessionstore/log.go:105-120 | the line loop computes the parsed transcript; without a header it is corrupt |
| StoreReading.TranscriptReadExactly | sessionstore/log.go:105-206 | a transcript is accepted if and only if its first line is a header of this user and session whose positive order is its incarnation and every later line is an event with an ID and an order, a sidecar with a kind and data or a line of a later version, no event ID twice; its events and records are those of the event lines in their order, and of every kind of sidecar the last one counts |
| StoreReading.JournalReadExactly | sessionstore/store.go:1986-2029 | a journal is accepted if and only if its lines decode and no two share an ID or an order; its entries are those of its lines, in order |
| StoreTranscript.AppendIsAtomic | sessionstore/log.go:74-120 | cut off at any byte, an append leaves the transcript as it was; with its line break it adds exactly the event |
| StoreTranscript.AttemptsMeanThat | sessionstore/store.go:817-894 | however often appends are tried and cut off, the file stays readable and holds each event once |
| StoreSession.Transcript.AppendEvent | sessionstore/store.go:817-941 | the outcome of an append: skipped, invalid, stale, replayed, refused or appended. What is appended has exactly the given keys that do not start with `temp:`, with their values; an event is replayed exactly when a stored one agrees with it in everything, temporary keys aside |
| StoreSession.Transcript.EventById | sessionstore/store.go:919-926 | finds an event with the ID exactly when there is one |
| StoreSession.Transcript.SessionState | sessionstore/store.go:2106-2116 | replays the header and every event and merges the projection |
| StoreSession.LastWriterWins | sessionstore/store.go:2106-2116 | a session key of the replayed state has the value of the last event that wrote it |
| StoreSession.UnwrittenAsInHeader | sessionstore/store.go:2106-2116 | a key no event wrote is as the header has it |
| StoreSession.OnlySessionKeysReplay | sessionstore/store.go:2106-2116 | app, user and temporary keys of events never become session keys |
| StoreSession.RetriesKeepFirst | sessionstore/store.go:817-941 | attempts after the first with an ID change nothing: one copy, with the first attempt's content |
| StoreSession.DurableSession.AppendCommitted | sessionstore/store.go:2195-2206 | the refreshed handle shows the merged view if and only if no bare scope prefix has left the projections |
| StoreSession.DurableSession.EnsureCommitted | sessionstore/store.go:2208-2218 | the same for an event that was already committed, which is not added twice |
| StoreSession.DurableSession.ReplaceShared | sessionstore/store.go:2220-2227 | shared keys are dropped, a bare prefix excepted, and replaced by the projection |
| StoreHandle.SharedFiles.Repair | sessionstore/store.go:1832-1868 | repairs the app journal with every record's app delta and then the user's with the user deltas of that user's records, and projects both; a contradiction stops it |
| StoreHandle.AppendOnce | sessionstore/store.go:807-941 | one call: transcript, journals, events of the handle and the state it shows afterwards, for new, replayed, refused, skipped and failed-but-committed events |
| StoreHandle.Replay | sessionstore/store.go:410-446 | reading a session repairs the journals from the transcripts first and then merges the replayed session state with their projection |
| StoreHandle.RegularStays | sessionstore/store.go:1832-1868 | every call leaves both journals, as a replay finds them, with an entry for every record of the transcript and no entry that is not of an issued record |
| StoreHandle.StoredAreFound | sessionstore/store.go:817-1088 | after any calls, reported or not, the journals a replay finds hold the app and user deltas of every stored event under its order |
| StoreHandle.GrowingJournalsKeepKeys | sessionstore/store.go:2049-2058 | while a journal only grows, its shared state loses no key, so no bare scope prefix disappears |
| StoreMirror.RunAppends | sessionstore/store.go:410-941 | any sequence of calls through one handle, each followed by a read from disk that repairs the journals: the two states are equal after a call exactly when seen and stored events give the same session keys and the journals shown and found the same shared keys; always after a successful call when none fails after committing, after every event taken up when failed ones are retried first, and after every call when no other session writes either |
| StoreMirror.ReportedCallsMirror | sessionstore/store.go:2106-2218 | as long as no call fails after its event was committed, the handle's state equals the replayed state after every successful call, replays of known events included |
| StoreMirror.QuietCallsMirror | sessionstore/store.go:2106-2218 | when moreover no other session writes, they are equal after skipped and refused calls too |
| StoreMirror.PromptCallsMirror | sessionstore/store.go:855-941 | when an append that was committed but failed is retried before the next event, handle and replay agree after every event the handle takes up |
| StoreMirror.SeenInTurnIff | sessionstore/store.go:2195-2218 | the handle has seen a prefix of the transcript, in its order, if and only if it took up every event in turn |
| StoreMirror.CallMirrorsIff | sessionstore/store.go:817-941 | a handle that shows the replayed state still does after a call if and only if an event missed or retaken leaves the session keys as they are and, unless the call succeeds, the repair of the next read leaves the shared state as it is |
| StoreMirror.QuietCallMirrorsIff | sessionstore/store.go:817-941 | with no other session writing, that is so if and only if the handle's state already has all session, app and user keys of an event that is committed without telling it, and the session keys of an old event it was not given |
| StoreMirror.MissedIsFound | sessionstore/store.go:855-862 | the next read adds the app and user keys of an event whose call failed after committing to the shared state |
| StoreMirror.MissedAppKey | sessionstore/store.go:855-862 | an event with one app key whose call failed after committing: a replay shows the key, the handle does not |
| StoreMirror.LateRetry | sessionstore/store.go:928-941 | a failed append retried after the next event: the handle shows the older value, a replay the newer one |
| StoreMirror.RecentEventsOnly | sessionstore/store.go:2208-2218 | a handle given only recent events that replays an older one shows its value again |
| StoreSegments.EncodePathSegment | sessionstore/paths.go:122-133 | the loop computes the percent-encoded name, whole names of one or two dots escaped |
| StoreSegments.EncodeSegment | sessionstore/paths.go:111-120 | refuses the empty identifier and encodings over 200 bytes |
| StoreSegments.DecodeSegment | sessionstore/paths.go:138-169 | the loop computes the decoding, refused unless the name is canonical |
| StoreSegments.DecodeAfterEncode | sessionstore/paths.go:111-169 | decoding an identifier's encoding gives it back exactly when the encoding fits |
| StoreSegments.AcceptedIffEncoding | sessionstore/paths.go:138-169 | a name is accepted if and only if it is the encoding of an identifier and fits, and it is of only one |
| StoreSegments.EncodedIsPlain | sessionstore/paths.go:122-133 | no encoded name is one or two dots, and none contains a separator |
| StoreSegments.EncodedSpells | sessionstore/paths.go:122-133 | an encoded name spells the identifier's bytes in order: letters, digits, full stop, low line and hyphen stand for themselves, every other byte is a percent sign and two upper-case hexadecimal digits, and in the names of one or two dots the dots are escaped |
| LspDiagnostics.DiagnosticStates.PrepareDiagnostics | lsp/manager.go:658-666 | sets the document version, returning generation and previous version; other documents unchanged |
| LspDiagnostics.DiagnosticStates.RollbackDiagnostics | lsp/manager.go:668-675 | restores the previous version unless it has moved on |
| LspDiagnostics.DiagnosticStates.PublishDiagnostics | lsp/manager.go:612-630 | accepts or ignores a publication by version, tag and mode |
| LspDiagnostics.DiagnosticStates.CloseDiagnostics | lsp/manager.go:788-814 | clears the document and ends acceptance of untagged publications |
| LspDiagnostics.DiagnosticStates.WaitOnce | lsp/manager.go:709-730 | one pass of the waiting loop answers, gives up or waits |
| LspDiagnostics.AnswerIsCurrent | lsp/manager.go:612-730 | in every interleaving a successful wait returns the latest publication, accepted after the ticket's version was prepared, tagged with exactly that version or untagged with version 1 |
| LspDiagnostics.TaggedPublicationAnswers | lsp/manager.go:612-730 | while the ticket's version is current, a publication with its tag answers the wait |
| LspDiagnostics.UntaggedPublicationAnswers | lsp/manager.go:612-630 | an untagged publication answers the wait for version 1 of a document that was never closed, and changes nothing otherwise |
| LspDiagnostics.UntaggedUntilClosed | lsp/manager.go:788-814 | untagged publications are accepted exactly until the document is closed for the first time |
| LspDiagnostics.OtherVersionsIgnored | lsp/manager.go:612-630 | while a version is open a publication for another one changes nothing |
| LspDiagnostics.FailureRestoresVersion | lsp/manager.go:668-705 | a failed notification leaves the document at the version that was open before |
| LspLifecycle.Manager.BeginStart | lsp/manager.go:166-189 | refused, existing, degraded, waiting or owning a new start, with the state after it |
| LspLifecycle.Manager.CompleteStart | lsp/manager.go:204-228 | registers the client or counts the failure, and ends the attempt |
| LspLifecycle.Manager.RecordFailure | lsp/manager.go:363-387 | counts, unregisters and disables, and says whether to close the transport |
| LspLifecycle.Manager.RecordSuccess | lsp/manager.go:352-361 | resets the failures of the registered client only |
| LspLifecycle.Manager.CloseLocked | lsp/manager.go:437-458 | closes for good and takes out exactly the registered clients |
| LspLifecycle.OneStartPerServer | lsp/manager.go:124-247 | in every interleaving a server and root has at most one start in progress, and none beside a registered client or when disabled |
| LspLifecycle.DisabledForGood | lsp/manager.go:204-228 | a disabled server stays disabled |
| LspLifecycle.DisabledIff | lsp/manager.go:204-387 | in every interleaving a server's count is its failures in a row, and it is disabled if and only if at some point that count reached the limit or its executable was missing |
| LspLifecycle.RegisteredBelowLimit | lsp/manager.go:204-387 | a registered client has failed fewer times in a row than the limit, and its server is not disabled |
| LspLifecycle.ReturnsOrStarts | lsp/manager.go:166-189 | a call on an open manager returns at once when there is a client or the server is disabled; otherwise it owns the start or waits for the owner's |
| LspLifecycle.NothingLeftRunning | lsp/manager.go:230-472 | once the manager is closed and every call has returned, every transport ever started is closed or disconnected |
| LspLifecycle.NoLostWakeup | lsp/manager.go:146-160 | a waiting call always has a start in progress to wait for, or can go on |
| LspPosition.PositionForOffset | lsp/path.go:83-103 | the loops compute line and column of an accepted offset and refuse every other |
| LspPosition.FindLine | lsp/path.go:110-124 | start and text end of a line, when there is one |
| LspPosition.OffsetForPosition | lsp/path.go:106-143 | the loops compute the offset a position names, or refuse it |
| LspPosition.EncodedLength | lsp/path.go:145-180 | units of a range in the encoding, or refusal of an unsupported one |
| LspPosition.PositionRoundTrip | lsp/path.go:83-143 | a position that names an offset is the position of that offset |
| LspPosition.OffsetRoundTrip | lsp/path.go:83-143 | an accepted offset comes back from its position, except, exactly, the end of a document whose last byte is CR |
| LspPosition.LoneCrAtEnd | lsp/path.go:83-143 | one letter and a CR: the end is column 2 of line 0, and that position names no offset |
| LspPosition.UnsupportedEncoding | lsp/path.go:125-180 | with an unsupported encoding exactly the columns 0 are still accepted |
| LspPosition.UnitsInUtf16 | lsp/path.go:145-180 | the units of a range are the length of its characters written out in UTF-16 with surrogate pairs |
| LspPosition.PositionCounts | lsp/path.go:83-103 | the line of an offset is the number of line feeds before it, its column the bytes or the UTF-16 code units since the last one |
| CallIds.FirstFree | oneshot/boundaries.go:363-374 | the search for an untaken candidate terminates at the first one |
| CallIds.NormalizeFunctionCallIds | oneshot/boundaries.go:345-380 | IDs become distinct and non-empty, first occurrences are kept, and IDs that were distinct do not change |
| CallIds.NormalizeChatResponseCallIds | openai/chat.go:732-761 | the same for a chat response, with candidates from the call's own position on |
| CallIds.Tracker.ConvertCall | openai/chat.go:313-342 | a call gets its ID or one made from its position; a repeated ID is refused; the history stays well matched |
| CallIds.Tracker.ConvertResponse | openai/chat.go:344-391 | a tool message is accepted exactly when it names one pending call of the same name, and the history stays well matched |
| CallIds.OpenIsUnanswered | openai/chat.go:344-391 | the pending list is exactly the calls of the history without an answer |

## Left out

- Compaction: the encoded length of a value is a parameter, what a model and a configuration add to it included, fingerprints are the erased contents themselves (the digest is taken as injective), fractions and calibration factors are reals, and estimation or encoding errors do not occur.
- CompactionPolicy.ApplyPolicy: the durable lists are sorted at the end of a run; the model reads them as multisets only.
- CompactionRuns.SessionStaysSticky: the recent window and the preserved tools are the same in every round; a change of them can make a dropped turn undroppable.
- Compaction: exact stickiness of elisions over a session, because keys repeat for responses without IDs; which recorded elisions one run applies again is exact (`CompactionDecisions.ReElidedElidesAgain`).
- Compaction: the elide-then-restore closures are modelled as keeping or discarding the changed contents.
- Output: the floating-point split of a limit is any function that gives a head share between zero and the limit.
- Output: head and tail candidates of the general rendering entry are one list, as in both of its callers; line ranges with a first line number are not modelled.
- OutputWriter.WriteChunks: streams longer than the largest signed counter, where a chunk is refused as a whole (`Writer.Write` states the refusal); the writer's lock.
- OutputPolicy.Apply: byte and line counters are unbounded.
- Store: real file operations, syncing and its failures, permissions; a disk file is its text or its list of records.
- Store: a record's identity stands for its digest, which is taken as injective; JSON is an encoder and a decoder that invert each other; nil and empty deltas are the same.
- StoreTranscript.SessionLogParser.ParseLine: a line of another version carries no shared record, so its order is not seen by a scan; sidecars are kept apart.
- Store: the first write of a transcript, header included, is one step.
- StoreProtocol: building the inventory is one step. While it runs the project lock is held and no order can be reserved, so nothing can be added to what it reads.
- StoreProtocol: inventory refusals and the in-memory list of unreconciled records, which only make reservations fail or bounds larger; `StoreInventory` holds the inventory itself.
- StoreProtocol: orders in the state machine are unbounded; the refusal after the largest 64-bit order is in `StoreInventory` only.
- Store: snapshots of projections, warnings, hooks, listing and filtering, and opening and closing the store.
- StoreProjection.MergeKnownSharedRecords: the app side only; the user side of the cached projection, and its rebuilding after a failed repair, are not modelled.
- StoreMirror.RunAppends: speaks about the only handle in use; a second handle sees other handles' events only after it is read again. `Set` on a state view, which writes to the handle alone, is not called.
- StoreHandle: a repair that fails on a disk error; the state then comes from journals and records merged in memory, which hold the same entries (`StoreJournal.AdditionsRestart`), or from the cache when the journals cannot be read. A scan may list its records in any arrangement; the projection does not depend on it (`StoreProjection.ProjectionOfSet`).
- LspDiagnostics.AnswerIsCurrent: document versions are unbounded; the overflow of a 32-bit version is not modelled.
- LspLifecycle: processes, timeouts, deduplication of warnings, and the panics that a start turns into failures.
- LspPosition.PositionForOffset: line and column are unbounded where the code counts in 32 bits.
- LspPosition.OffsetForPosition: unit counters are unbounded where the code adds in 32 bits.
- LspPosition.EncodedLength: the length is unbounded where the code wraps at 32 bits.
- CallIds: names and parts of unsupported form are a flag; the digest behind chat IDs is taken as injective.
- Configuration, discovery of extensions and context, shell execution, wiring to HTTP and the agent kit, the plugin registry, framing, and the search and ledger tools: single checks or code resting on libraries.
