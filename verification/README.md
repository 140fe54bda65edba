# Loomem: a verified model of its protocols

A Dafny model of the parts of Loomem that must stay right under crashes, interleavings and odd
inputs. `dafny verify dfyconfig.toml` checks all of it.

| module | what it models |
|---|---|
| `Budget` | the fail-closed spend ledger of the LongMemEval bench: reserve the maximum, settle the usage |
| `PaidEntries`, `PaidProtocol`, `PaidInvariant`, `PaidCall`, `PaidClient`, `PaidPolicy` | the paid-call protocol over that ledger: its cache entries, its steps by many processes with a crash allowed between any two, what every step keeps, what follows, the sequential program, and which bills keep the limit |
| `IntentLog` | the write-ahead intent log: append, commit, rotation, reopening, pending scan, clean-up |
| `Chunks`, `MemoryChain`, `DreamTrust` | version chains, guarded supersedes, derivation and dream runs, and the walk that lists a memory's history |
| `Queue` | producers, worker, shutdown drain and pending gauge of the embedding and extraction queues |
| `Packing`, `GreedySelection`, `BoundedSelection` | first-fit context packing and the two selectors above it |
| `EntityMatch` | leftmost-longest dictionary matching |
| `Clustering`, `Consolidation` | greedy clustering with running centroids, and the lease a consolidation pass takes on its sources |
| `AuditChain` | the hash-chained audit log |
| `HistorySplits` | dev, pilot and evaluation splits that keep questions with one history together |
| `EpochFence` | scopes, epochs and jobs of the hosted worker's shared engine |
| `Prelude`, `Sums`, `Division`, `Sorting` | shared types, sums over maps, division facts, orders and sorting |

Each area pairs the program with what it is for. Code that changes state is a class or a method with
loops, tied to a specification function or a trace; protocols are state machines; and the main
results are lemmas over every input, every run or every reachable state.

## What turned out not to hold

The model follows the code. Where a comment, a message or a natural reading promises more, a lemma
gives an input on which it fails, and another says when it holds: exactly, or by how much it is missed.

- The queue's `pending` gauge is documented as zero after shutdown. It is zero after the worker exits
  exactly when no producer is between counting and taking its count back (`Queue.ZeroAfterExitIff`).
  A worker whose batch size, interval or token bound is zero never exits (`Queue.ShutdownCompletesIff`).
- `gc_old_logs` says it deletes fully committed archives. It deletes archives without pending lines, so a
  commit mark can vanish before its pending line and the operation comes back (`IntentLog.GcCanBringBack`);
  `IntentLog.GcExactIff` and, over whole runs, `IntentLog.RecoveryAfterGcIff` say exactly when nothing changes.
- The same clean-up counts no pending lines in an archive it cannot open, and deletes it: an operation that was
  never committed can be lost, and its number given out again (`IntentLog.GcCanLose`). Nothing is lost exactly
  when no removed archive holds the last copy of an unresolved entry (`IntentLog.RemoveLosesIff`,
  `IntentLog.GcLosesIff`; over whole runs `IntentLog.RecoveryNeverLoses`).
- The consolidation guard says it clears leases on every exit. It does not exist yet when
  `mark_in_progress` fails half way (`Consolidation.MarkingCanStrand`, `Consolidation.NothingStrandedIff`).
  The chunks marked by then are out of reach of every pass until the recovery of the next start gets to
  them, and a deleted one keeps its lease (`Consolidation.StrandedUntilRecovery`).
- Consolidation logs that a spent budget stops it. It stops only the current stream
  (`Consolidation.PassGoesOnAfterBudget`), and the whole pass exactly when no later stream has work
  (`Consolidation.BudgetStopsThePassIff`).
- Audit keys are said to sort in (timestamp, sequence) order. Sequence numbers count over the process, start
  again at zero with it, and are padded to six digits, so inside one second the order can break
  (`AuditChain.SequenceOverflowsItsPadding`, `AuditChain.RestartSortsFirst`, exactly: `AuditChain.KeysSortIff`).
  A row that lands in the middle breaks the chain, and one that lands first is not seen
  (`AuditChain.AppendVerifiesIff`), but a second one is (`AuditChain.HistoryVerifiesIff`); one whose key is taken
  replaces a row (`AuditChain.OverwriteVerifiesIff`).
- `_balanced_ids` reports that the size cannot be reached without splitting a history group. It never takes
  a group back, so it can report this although other groups add up to the size
  (`HistorySplits.FillCanMissAnExactSplit`). It cannot fail when no choice of whole groups gets stuck short of
  the size (`HistorySplits.ExtensibleSucceeds`), for one category exactly then (`HistorySplits.OneCategorySucceedsIff`).
- Staying inside the reservations does not keep the bills inside the limit: settling replaces a reservation by
  the usage the provider reported, so a bill above that usage escapes (`PaidPolicy.UnderstatedUsageEscapes`).
  The limit is kept exactly by billing no call above its reservation or its reported cost
  (`PaidPolicy.PolicyKeepsLimitsIff`).
- `_finish` can refuse a choice that fits the budget when the token counter is not monotone, and both selectors
  hand it such choices under an abstract counter (`GreedySelection.SelectContextCanRefuse`, `BoundedSelection.SelectBoundedCanRefuse`).
  It succeeds exactly if every prefix of the choice fits (`Packing.FinishSucceedsIff`).

## Model

| member | source | states |
|---|---|---|
| `Budget.BudgetLedger.constructor` | bench/longmemeval/budget.py:76-79 | A ledger handle over whatever file and marker are there, with its limit still unchecked. |
| `Budget.BudgetLedger.Open` | bench/longmemeval/budget.py:76-93 | Opening writes an empty ledger only when none was ever initialized; a ledger that was marked and vanished is an error, never a fresh start. |
| `Budget.BudgetLedger.Read` | bench/longmemeval/budget.py:105-135 | Reading accepts exactly the ledgers with the right limit, well-formed unique requests, and committed money inside the limit unless breached. |
| `Budget.BudgetLedger.Totals` | bench/longmemeval/budget.py:49-63 | The loop returns the sums of settled and of outstanding reservations over the map, in whatever order, and whether any settlement exceeded its reservation. |
| `Budget.BudgetLedger.Reserve` | bench/longmemeval/budget.py:155-176 | Exactly the listed refusals (bad money, blank or repeated id, breach, limit) leave the file alone; otherwise one unsettled row is added. |
| `Budget.BudgetLedger.VerifyReservation` | bench/longmemeval/budget.py:178-192 | A token is confirmed only for its own request and its own maximum. |
| `Budget.BudgetLedger.Settle` | bench/longmemeval/budget.py:194-211 | Settling fills in one row, refuses a different second amount, and records an overrun before reporting it. |
| `Budget.BudgetLedger.FindToken` | bench/longmemeval/budget.py:194-205 | The search finds a row holding the token, or there is none. |
| `Budget.AmountsMean` | bench/longmemeval/budget.py:34-46 | An amount is accepted exactly with up to 28 digits and between 12 places down and 12 up; counted in units of 10^-12 dollars it is the digits themselves there, and ten times as much one place up. |
| `Budget.SameValue` | bench/longmemeval/budget.py:34-46 | An amount is worth the same however it is written. |
| `Budget.CommittedIsTheSum` | bench/longmemeval/budget.py:49-63 | Committed money is the sum, over the requests, of the confirmed usage of the settled ones and the maximum of the others. |
| `Budget.OverrunIsTheSum` | bench/longmemeval/budget.py:49-63 | The overrun is the sum of what settled requests used above their own maximum, and a breach is exactly that some request did. |
| `Budget.ReadsBackIff` | bench/longmemeval/budget.py:105-135 | A ledger is read back exactly if its limit is right, its rows well formed with different tokens, and its committed money inside the limit or overrun. |
| `Budget.ReserveMeans` | bench/longmemeval/budget.py:155-176 | A reservation is granted exactly to an unblank new id with an accepted amount that fits beside the committed money of a readable ledger without overrun; it adds one row, and each refusal names a reason that holds. |
| `Budget.SettleMeans` | bench/longmemeval/budget.py:194-211 | A settlement is refused without a trace exactly for a bad amount, an unreadable ledger or an unknown token; otherwise the row of the token takes the amount unless it already has another one, and an overrun is reported. |
| `Budget.CommittedSplits` | bench/longmemeval/budget.py:49-63 | Spent plus reserved is exactly the part inside the reservations plus the total overrun of settled requests. |
| `Budget.ReserveIsSound` | bench/longmemeval/budget.py:155-176 | A successful reservation keeps every state invariant, so the state it writes is one the next read accepts. |
| `Budget.SettleTouchesOneRow` | bench/longmemeval/budget.py:194-211 | The row a token names is unique: settling changes that row and no other. |
| `Budget.SettleIsSound` | bench/longmemeval/budget.py:194-211 | Settling keeps every state invariant, also when it reports a breach. |
| `Budget.RunStaysWithinLimit` | bench/longmemeval/budget.py:105-211 | Over every run of reserves and settles: the next read accepts the state, and spent plus reserved is at most the limit plus the total overrun. |
| `Budget.RunExtends` | bench/longmemeval/budget.py:155-211 | Rows are never removed, reservations never change, and a settled amount never changes, over every run. |
| `Budget.BreachIsPermanent` | bench/longmemeval/budget.py:155-168 | After a breach no later state of any run admits a reservation. |
| `Budget.ReservedOnce` | bench/longmemeval/budget.py:155-168 | A request id that was reserved can never be reserved again in any run. |
| `Budget.SettleTwice` | bench/longmemeval/budget.py:194-211 | Settling the same amount again changes nothing; a different amount is refused without change. |
| `PaidEntries.WrittenEntriesAreValid` | bench/longmemeval/qa_transport.py:140-228 | Both entries the protocol writes, before and after settling, pass the content checks of cache validation: a round trip through write and validate. |
| `PaidEntries.UsageWithinReservation` | bench/longmemeval/qa_transport.py:80-82 | Usage inside the reserved token window never costs more than the reservation. |
| `PaidEntries.FirstEntrySays` | bench/longmemeval/qa_transport.py:109-181 | What the first cache entry says of every answer: the text, the counts, the finish reason and the cost of one that counts, or why it does not. |
| `PaidEntries.AcceptsCachedIff` | bench/longmemeval/qa_transport.py:200-228 | A cached file is accepted exactly if it is undamaged, is a bare failure or an answer whose text, counts, cost, model and tier agree with the configuration, and stands under its own reservation. |
| `PaidEntries.SettlingMeans` | bench/longmemeval/qa_transport.py:184-193 | A refused settlement raises and leaves the cache; otherwise an answer gets its final form, on disk and returned: completed exactly if it stopped, else failed as incomplete. |
| `PaidEntries.CompleteMeans` | bench/longmemeval/qa_transport.py:140-181 | The provider is called exactly for an accepted configuration without a cached file whose reservation is granted; an untrusted configuration and a bad cached file raise, a refused reservation is reported, all without any change. |
| `PaidInvariant.StepKeepsInv` | bench/longmemeval/qa_transport.py:140-228 | Every step of every process, crashes included, keeps the protocol invariant. |
| `PaidInvariant.RunKeepsInv` | bench/longmemeval/qa_transport.py:140-228 | So does every interleaving of any number of processes. |
| `PaidCall.ReachableInv` | bench/longmemeval/qa_transport.py:140-228 | The invariant holds in every state reachable from an empty ledger and cache. |
| `PaidCall.AtMostOneCall` | bench/longmemeval/qa_transport.py:140-181 | In every interleaving with a crash at any step the provider is called at most once per request hash. |
| `PaidCall.CallsAreReserved` | bench/longmemeval/qa_transport.py:164-176 | A call is only ever issued for an accepted configuration, under a durable, unsettled reservation for its full maximum, with no earlier call and no cached answer. |
| `PaidCall.BilledWithinLimit` | bench/longmemeval/qa_transport.py:140-193 | Whatever the bills are, the sum of all of them, settled or not, is at most the limit plus what single bills exceed their ledger rows by. |
| `PaidCall.CoveredBillsStayWithin` | bench/longmemeval/qa_transport.py:140-193 | So the limit holds when no bill exceeds its reservation or the usage its settlement recorded. |
| `PaidPolicy.CoveredWithinRow` | bench/longmemeval/qa_transport.py:164-193 | A bill within both its reservation and its reported cost is within what the ledger counts for the request, settled or not, in every reachable state. |
| `PaidPolicy.ObeyingStaysWithin` | bench/longmemeval/qa_transport.py:140-193 | If the provider bills no call more than its reservation, nor more than the usable cost it reports, no run exceeds the limit. |
| `PaidPolicy.UncoveredEscapes` | bench/longmemeval/qa_transport.py:140-193 | Any other bill for an accepted configuration, sent again and again with its answer, exceeds a limit that every reservation of the run respected; the limit and the number of calls are computed from the three. |
| `PaidPolicy.PolicyKeepsLimitsIff` | bench/longmemeval/qa_transport.py:140-193 | A billing policy keeps every run of accepted configurations with reservations below 100 dollars inside every limit exactly if each bill it allows is covered in that sense. |
| `PaidPolicy.UnderstatedUsageEscapes` | bench/longmemeval/qa_transport.py:46-77 | With the smallest accepted configuration, a provider that reports no tokens and bills the whole reservation exceeds the limit, although each bill is inside its reservation. |
| `PaidPolicy.CallCommitsItsUsage` | bench/longmemeval/qa_transport.py:140-193 | A call commits exactly the cost it reports when that is inside the reservation; the rest can be reserved again. Otherwise one row is added all the same. |
| `PaidPolicy.FirstCallMeans` | bench/longmemeval/qa_transport.py:140-193 | A whole first call returns and caches a completed entry exactly if the answer counts, stopped and costs no more than the reservation; a cost above it raises and leaves the first entry. |
| `PaidCall.RerunConverges` | bench/longmemeval/qa_transport.py:158-228 | After the first cache write, whatever crashed since, a rerun validates the file, makes no call, ends with the same entry and ledger row, and a second rerun changes nothing. |
| `PaidCall.CachedFileIsValid` | bench/longmemeval/qa_transport.py:200-228 | Every file the protocol ever leaves in the cache is intact and passes validation. |
| `PaidCall.RerunReturnsIff` | bench/longmemeval/qa_transport.py:158-228 | In every later state a rerun returns exactly if the confirmed cost is an accepted amount inside the reservation, or there is none; otherwise it raises each time, without a call and without touching the cache. |
| `PaidCall.CountsInsideAreWithin` | bench/longmemeval/qa_transport.py:80-82 | The confirmed cost is inside the reservation whenever the counts stay inside the window and the completion limit. |
| `PaidCall.OverrunAlwaysRaises` | bench/longmemeval/qa_transport.py:184-193 | A usage above the reservation is recorded and raised on every rerun; it never turns into a success. |
| `PaidCall.FinishersAgree` | bench/longmemeval/qa_transport.py:140-193 | Every process that finishes returns the one final entry of its request, which is on disk and settled. |
| `PaidCall.FinalEntryMeans` | bench/longmemeval/qa_transport.py:184-193 | In every reachable state, the entry a finished process returned is on disk, keeps all the first entry says, and is completed exactly if the answer counted and stopped, failed as incomplete exactly if it counted and did not stop. |
| `PaidCall.CachedEntryMeans` | bench/longmemeval/qa_transport.py:140-228 | In every reachable state a cached file holds the first entry of its request or that final form of it. |
| `PaidCall.RerunMeans` | bench/longmemeval/qa_transport.py:158-228 | After any crashes, a rerun returns and leaves on disk that final form of the first entry. |
| `PaidClient.CompleteIsARun` | bench/longmemeval/qa_transport.py:140-193 | The sequential program is one of the interleavings: run alone it does to the disk what some run of the atomic steps does. |
| `PaidClient.CompletionClient.Complete` | bench/longmemeval/qa_transport.py:145-181 | The whole call: an exception for a refused configuration or a bad cached entry, the refusal dictionary for a refused reservation, otherwise the cached or the new entry; exact new cache, ledger, result and whether a call was made. |
| `PaidClient.CompletionClient.SettleResponse` | bench/longmemeval/qa_transport.py:184-193 | Settle the confirmed usage and write the final entry, or raise and leave the entry as it was. |
| `IntentLog.ScanLinesSees` | loomem-core/src/intent_log.rs:303-339 | Scanning a file's lines one by one accumulates exactly the pendings and commits seen so far, wherever the commit marks stand. |
| `IntentLog.SeenIsUnresolved` | loomem-core/src/intent_log.rs:162-183 | With one entry per sequence number the scan's pending map is exactly pendings minus committed. |
| `IntentLog.WriteAddsLine` | loomem-core/src/intent_log.rs:231-254 | A write adds exactly one line to what the directory holds, also when the flush or the rotation after it fails; a failed write adds none. |
| `IntentLog.RotateKeepsLines` | loomem-core/src/intent_log.rs:256-288 | Rotation moves lines and loses or adds none. |
| `IntentLog.RemoveKeepsPendings` | loomem-core/src/intent_log.rs:191-221 | Deleting archives without pending lines loses no pending entry, though it may lose commit marks. |
| `IntentLog.StepKeepsInv` | loomem-core/src/intent_log.rs:87-288 | Every append, commit, reopen and fault, and every clean-up that takes no last copy of an unresolved entry, keeps the invariant: what is outstanding is pending on disk and unmarked, and numbers tell entries apart. |
| `IntentLog.RecoveryIsExact` | loomem-core/src/intent_log.rs:87-183 | After any run without clean-up, recovery returns an entry for exactly the numbers issued and not committed since, each with the operation, id and time its append was called with. |
| `IntentLog.RecoveryNeverLoses` | loomem-core/src/intent_log.rs:162-221 | With clean-ups in the run, as long as none removes the last copy of an entry then unresolved, recovery returns every uncommitted operation and nothing that was never issued, each as its append was called, whatever archives could not be opened and whatever the age limit. |
| `IntentLog.EverythingIsAsAsked` | loomem-core/src/intent_log.rs:136-147 | Over all runs, clean-ups of any kind included, every pending line on disk has the operation, id and time of the append that was given its number. |
| `IntentLog.LinesSayWhatWasAsked` | loomem-core/src/intent_log.rs:136-159 | An append and a commit that are written leave a line with the number, operation, id and time of the call. |
| `IntentLog.OpenedIsCareful` | loomem-core/src/intent_log.rs:191-221 | Runs without an age limit in which every clean-up opens every archive are of that kind. |
| `IntentLog.NewSeqsAreNew` | loomem-core/src/intent_log.rs:87-147 | Over all runs, whatever a clean-up removed, the next sequence number exceeds every one in any retained file. |
| `IntentLog.AppendOrderedIff` | loomem-core/src/intent_log.rs:136-147 | An append keeps that order exactly when the 64-bit counter does not wrap. |
| `IntentLog.AppendUsesANumber` | loomem-core/src/intent_log.rs:136-147 | Every append uses up the next number, also when its write fails; after the largest comes zero. |
| `IntentLog.RotateMeans` | loomem-core/src/intent_log.rs:256-288 | Below the size limit nothing moves; at it the lines move under the first free number of this second, and nothing else changes. |
| `IntentLog.SizeIsTracked` | loomem-core/src/intent_log.rs:231-254 | The tracked size is the length of the current file after every write, except for a line that was written and not flushed; a write succeeds unless it, its flush or a due rotation failed. |
| `IntentLog.OpenMeans` | loomem-core/src/intent_log.rs:87-133 | A log opens with the smallest number above every one on disk, or fails exactly if the largest possible number is used. |
| `IntentLog.GcMeans` | loomem-core/src/intent_log.rs:191-221 | A clean-up removes exactly the archives that cannot be opened, hold only committed lines, or are past the age limit, and touches nothing else. |
| `IntentLog.LastPendingWins` | loomem-core/src/intent_log.rs:162-183 | When a number was used more than once, a scan from the oldest line to the newest takes its last pending line. |
| `IntentLog.RemoveLosesIff` | loomem-core/src/intent_log.rs:191-221 | For every directory, removing archives for whatever reason loses no unresolved entry exactly if no removed archive holds the last copy of one. |
| `IntentLog.GcLosesIff` | loomem-core/src/intent_log.rs:191-221 | In every state reached by such a run, a whole clean-up loses no outstanding operation exactly if none of those in archives it cannot open or finds too old lacks a copy in the current file or a kept archive. |
| `IntentLog.GcCanLose` | loomem-core/src/intent_log.rs:395-398 | A reached state with an uncommitted operation in an archive that cannot be opened: the clean-up removes it, and the next opening gives the same number out again. |
| `IntentLog.RemoveExactIff` | loomem-core/src/intent_log.rs:191-221 | For every directory, removing archives leaves the recovery result unchanged exactly if no last copy of an unresolved entry goes and every marked entry that stays keeps a mark. |
| `IntentLog.GcExactIff` | loomem-core/src/intent_log.rs:191-221 | A whole clean-up leaves it unchanged exactly if every unresolved entry, and a mark of every other entry that stays, stands in the current file or in a young archive that is opened and has a pending line: facts of the directory and of what cannot be opened. |
| `IntentLog.RecoveryAfterGcIff` | loomem-core/src/intent_log.rs:191-221 | In every state reached by such a run: after one more clean-up of any kind, whole or cut short, recovery is exactly what is outstanding if and only if every outstanding entry, and a mark of every committed one that stays, stands outside the removed archives. |
| `IntentLog.GcCanBringBack` | loomem-core/src/intent_log.rs:191-221 | For every configuration without an age limit: a run that commits each number at most once, to a state in which a committed operation is not recovered, and the state one clean-up later that opens every archive, in which it is. |
| `IntentLog.IntentLog.constructor` | loomem-core/src/intent_log.rs:73-133 | The in-memory state of an open log. |
| `IntentLog.IntentLog.Open` | loomem-core/src/intent_log.rs:87-133 | Opening recovers the next sequence number from every retained file, fails when a file cannot be opened or the number would overflow, and keeps all lines. |
| `IntentLog.IntentLog.ScanDirectoryMaxSeq` | loomem-core/src/intent_log.rs:341-352 | The largest sequence number in any file, 0 for none, an error when an archive cannot be opened. |
| `IntentLog.IntentLog.ScanMaxSeq` | loomem-core/src/intent_log.rs:354-376 | The largest sequence number of one file, malformed lines skipped. |
| `IntentLog.IntentLog.AppendPending` | loomem-core/src/intent_log.rs:136-147 | A pending line under a fresh number; the counter moves even when the write fails. |
| `IntentLog.IntentLog.MarkCommitted` | loomem-core/src/intent_log.rs:150-159 | A commit line under the given number. |
| `IntentLog.IntentLog.WriteEntry` | loomem-core/src/intent_log.rs:231-254 | Write, flush, account the size, then perhaps rotate. |
| `IntentLog.IntentLog.MaybeRotate` | loomem-core/src/intent_log.rs:256-288 | Below the size limit nothing moves; otherwise the file is archived under a name not taken. |
| `IntentLog.IntentLog.ScanPending` | loomem-core/src/intent_log.rs:162-183 | Unresolved entries, one per sequence number, ascending, as scanning the archives from the oldest to the newest and then the current file leaves them, whatever order they are listed in; an error exactly when a file cannot be opened. |
| `IntentLog.IntentLog.ScanArchives` | loomem-core/src/intent_log.rs:162-175 | The loop over the archives, oldest first, is one scan of all their lines; it fails exactly if one cannot be opened. |
| `IntentLog.IntentLog.ScanFile` | loomem-core/src/intent_log.rs:303-339 | The loop over one file is the line-by-line scan. |
| `IntentLog.IntentLog.GcOldLogs` | loomem-core/src/intent_log.rs:191-221 | Removes exactly the archives that cannot be opened, have no pending lines or are too old, and counts them; a delete that fails stops it with only such archives gone. |
| `IntentLog.IntentLog.CountPendingInArchive` | loomem-core/src/intent_log.rs:395-412 | Counts every pending line, matched or not, and none in a file that cannot be opened. |
| `Chunks.GuardMeans` | loomem-core/src/contradiction.rs:327-408 | A chunk said by the user, or without a tier, gives way only to such text; assistant text only to that or to its own tier; weak text to any known tier. |
| `Chunks.DerivedTiers` | loomem-core/src/derived_safety.rs:7-17 | Generated text is assistant text exactly if all its sources are at least that, unknown exactly if it has none or one is unknown, and never marked as the user said it. |
| `Chunks.SupersedeMeans` | loomem-core/src/contradiction.rs:368-426 | Superseding changes the old chunk only in its flag and successor, and the new one only in predecessor, root and version. |
| `Chunks.MinRank` | loomem-core/src/derived_safety.rs:7-17 | The weakest tier among the sources, reached by one of them. |
| `Chunks.DerivedRank` | loomem-core/src/derived_safety.rs:7-17 | A derived chunk is no more trusted than any source and never more than the cap. |
| `Chunks.PastReadsAreCopies` | loomem-core/src/contradiction.rs:368-408 | Over every history, a chunk read in the past is a copy of the stored one up to what later changes may touch, so a stale copy cannot supersede with other trust. |
| `MemoryChain.GetMemoryChain` | loomem-core/src/contradiction.rs:530-575 | The two loops compute the walk back to the root and then forward. |
| `MemoryChain.Follow` | loomem-core/src/contradiction.rs:530-575 | One direction: follow links to unseen stored chunks, collecting live ones up to the limit. |
| `MemoryChain.AnyGraph` | loomem-core/src/contradiction.rs:530-575 | On an arbitrary pointer graph the walk ends with at most `limit` live chunks, without repeats, including the queried one if it is live. |
| `MemoryChain.ChainFromAnyMember` | loomem-core/src/contradiction.rs:530-575 | From every member of a chain the walk lists the same live versions. |
| `MemoryChain.ChainWithinLimit` | loomem-core/src/contradiction.rs:530-575 | With too little room a member lists itself if live, the live versions nearest before it, and with what room is left those nearest after it. |
| `MemoryChain.LiveAscends` | loomem-core/src/contradiction.rs:416-426 | That list is in strictly ascending version order. |
| `MemoryChain.HistoriesKeepChains` | loomem-core/src/contradiction.rs:368-426 | Creates, soft deletes and guarded supersedes of the current version keep every chunk on one chain. |
| `MemoryChain.HistoryIsTheSameFromEveryMember` | loomem-core/src/contradiction.rs:368-575 | In every store such histories build, every chunk has one chain whose members all list the same live versions in version order. |
| `DreamTrust.StepKeepsLaw` | loomem-core/src/contradiction.rs:368-483 | Every store change, supersedes of stale or already superseded copies included, keeps the trust law: links lead to chunks of at least equal trust, derived text is capped by its sources. |
| `DreamTrust.TrustOverHistories` | loomem-core/src/dream.rs:569-635 | In every history trust never falls along successors or rises through any depth of derivation. |
| `DreamTrust.UserTextStaysUserText` | loomem-core/src/contradiction.rs:368-483 | In every history whatever replaces user text, at any distance, is user text, and generated text always has a tier other than the user one. |
| `DreamTrust.RetiresOnlyTheWeakest` | loomem-core/src/dream_security.rs:7-54 | A dream run can retire a source exactly if it is of the weakest tier of its group and no user statement. |
| `DreamTrust.NeverRetiresAbove` | loomem-core/src/dream_security.rs:7-54 | Even if a tier changed since the group was read, nothing above the weakest tier is retired. |
| `DreamTrust.NeverRetiresUserText` | loomem-core/src/dream_security.rs:7-54 | What a dream run retires is a current live member of the group in its stream with a tier other than the user one. |
| `DreamTrust.ResolveAllMeans` | loomem-core/src/dream_security.rs:7-50 | Exactly the retirable targets change, once each however often they are named. |
| `DreamTrust.RetiresAfterMerge` | loomem-core/src/dream.rs:569-635 | With the merged chunk stored, exactly the retirable named sources are flipped to it and marked, everything else stays, and no retired source outranks it. |
| `DreamTrust.ChunkStore.ApplySupersede` | loomem-core/src/contradiction.rs:368-408 | A passed guard flips the old chunk and links the new one; a blocked one changes only the audit trail. |
| `DreamTrust.ChunkStore.TrySupersedeForDream` | loomem-core/src/contradiction.rs:448-483 | The dream guard: flip and mark, or audit and leave, or fail to write and leave. |
| `DreamTrust.ChunkStore.ResolveDreamContradictions` | loomem-core/src/dream_security.rs:7-50 | The loop retires and counts exactly the retirable targets, and succeeds exactly if each of them can be written; otherwise it ends at the first that cannot, with exactly the retirable ones named before it retired. |
| `DreamTrust.ChunkStore.ApplyDreamResponse` | loomem-core/src/dream.rs:569-635 | An empty merge or a failed write retires nothing; otherwise the merged chunk is stored first, and then exactly the retirable sources named before the first that cannot be written point to it, none of them more trusted than it. |
| `Queue.StepKeepsInv` | loomem-core/src/embedding_queue.rs:55-211 | Every interleaved step of producers and worker keeps the accounting invariant. |
| `Queue.GaugeIsExact` | loomem-core/src/embedding_queue.rs:55-73 | The pending gauge is exactly counted-unsent plus refused-uncounted plus queued plus batched plus flushed-unsettled, so it never underflows. |
| `Queue.FlushedInOrder` | loomem-core/src/entity_extraction_queue.rs:123-211 | Accepted requests are flushed exactly once, in channel order, in batches inside both bounds. |
| `Queue.LeavesEarlyOnlyWhen` | loomem-core/src/entity_extraction_queue.rs:123-211 | In every reachable state: a batch leaves below both bounds only when time ran out, the channel is closed or drained, or there is no interval, and the worker never waits or drains on with a batch at a bound. |
| `Queue.ZeroAfterExitIff` | loomem-core/src/embedding_queue.rs:34-50 | After the worker exits the gauge is zero exactly when no producer is in the middle of an enqueue. |
| `Queue.NotAlwaysZeroAfterExit` | loomem-core/src/embedding_queue.rs:55-73 | A run in which it is one after shutdown. |
| `Queue.ShutdownDrains` | loomem-core/src/entity_extraction_queue.rs:183-202 | After a shutdown signal the worker alone can flush everything accepted and exit. |
| `Queue.StepsAreBounded` | loomem-core/src/embedding_queue.rs:136-197 | In every run after the signal, with producers interleaved in any way, the worker takes at most its distance from the exit and three steps for each detour and each request still accepted. |
| `Queue.EveryRunDrains` | loomem-core/src/entity_extraction_queue.rs:183-202 | So every run that is long enough has flushed everything accepted and exited, and until then the worker has an enabled step that is no detour. |
| `Queue.FairRunsDrain` | loomem-core/src/entity_extraction_queue.rs:123-202 | Every infinite run in which the worker keeps going, and the detours and late requests are bounded, drains everything accepted and exits. |
| `Queue.ShutdownCompletesIff` | loomem-core/src/embedding_queue.rs:136-197 | It can exit if and only if its batch size, interval and token bound let it look at its channel at all. |
| `Queue.QueueWorker.constructor` | loomem-core/src/embedding_queue.rs:103-135 | A worker over a configuration, a channel and a partly filled batch. |
| `Queue.QueueWorker.Enqueue` | loomem-core/src/entity_extraction_queue.rs:49-75 | Count first, then send, and take the count back when the channel refuses. |
| `Queue.QueueWorker.FlushBatch` | loomem-core/src/embedding_queue.rs:200-211 | Flush the batch, then subtract it from the gauge. |
| `Queue.QueueWorker.DrainQueue` | loomem-core/src/entity_extraction_queue.rs:183-211 | Drains batch and channel in order into bounded batches, every one but the last at a bound, and settles the gauge. |
| `Packing.PackContext` | bench/longmemeval/qa_context.py:74-108 | The loop is first fit over the full serialized list, with the listed refusals. |
| `Packing.PackMeans` | bench/longmemeval/qa_context.py:74-108 | What packing refuses and in which order; otherwise every record is selected or dropped and the reported tokens are those of the selection, within the budget. |
| `Packing.KeptWholeIff` | bench/longmemeval/qa_context.py:74-108 | A list is packed whole exactly if every prefix of it fits, for any counter. |
| `Packing.RepackIsWhole` | bench/longmemeval/qa_context.py:74-108 | Repacking a selection returns it whole, for any counter. |
| `Packing.FittingChoiceIsKept` | bench/longmemeval/qa_context.py:74-108 | With a monotone counter a list that fits as a whole is packed whole. |
| `Packing.NothingCanBeAdded` | bench/longmemeval/qa_context.py:74-108 | With a monotone counter no dropped record can be added back within the budget. |
| `Packing.FitSetIsFirstFit` | bench/longmemeval/qa_context.py:74-108 | The ranks kept by first fit pick out exactly the selected records. |
| `Packing.Finish` | bench/longmemeval/qa_selection_v2.py:107-125 | Repack the chosen records and refuse when membership changes. |
| `Packing.FinishSucceedsIff` | bench/longmemeval/qa_selection.py:55-71 | Finishing succeeds exactly if every prefix of the chosen records fits, and then divides the records into those and the others. |
| `Packing.FinishSucceedsIfMonotone` | bench/longmemeval/qa_selection_v2.py:107-125 | So with a monotone counter it cannot raise on a choice that fits. |
| `Packing.FinishCanRefuse` | bench/longmemeval/qa_selection.py:55-71 | For any three records and an abstract counter that finds only the first two together too long: first fit keeps the first and third, all three fit, and finishing them raises. |
| `GreedySelection.PickNext` | bench/longmemeval/qa_selection.py:33-52 | The feasible addition of highest score, earliest rank among equals, or none is feasible. |
| `GreedySelection.BestBeats` | bench/longmemeval/qa_selection.py:33-52 | The best record fits the budget and beats every other fitting one by score, or by rank between equals. |
| `GreedySelection.BestExists` | bench/longmemeval/qa_selection.py:33-52 | Whenever some record would still fit, there is a best one. |
| `GreedySelection.Fill` | bench/longmemeval/qa_selection.py:74-106 | A greedy order from the anchor that ends within budget and only when nothing can be added. |
| `GreedySelection.FindAnchor` | bench/longmemeval/qa_selection.py:74-106 | The rank of the first record the baseline packed. |
| `GreedySelection.AnchorFits` | bench/longmemeval/qa_selection.py:74-106 | The anchor alone fits the budget. |
| `GreedySelection.SelectContext` | bench/longmemeval/qa_selection.py:74-106 | Everything if it all fits, nothing if nothing does, otherwise the greedy choice, repacked. |
| `GreedySelection.SelectContextCanRefuse` | bench/longmemeval/qa_selection.py:74-106 | With that counter the first selector itself raises on any three records, whatever the utility. |
| `BoundedSelection.EvictionFits` | bench/longmemeval/qa_selection_v2.py:147-169 | For any counter, the returned eviction prefix makes the candidate fit. |
| `BoundedSelection.EvictionIsShortest` | bench/longmemeval/qa_selection_v2.py:147-169 | For a counter that never grows when records go, it is the shortest such prefix, and none means no prefix fits. |
| `BoundedSelection.AttemptIsDetermined` | bench/longmemeval/qa_selection_v2.py:172-197 | A candidate is accepted with one eviction list only, and never both accepted and turned down. |
| `BoundedSelection.PromotionRun` | bench/longmemeval/qa_selection_v2.py:180-217 | Over every promotion run: baseline minus evicted plus promoted, within budget, promotions from outside the baseline, protected ranks and promoted records never evicted, exposure at most 800. |
| `BoundedSelection.PromotedTokensAreBounded` | bench/longmemeval/qa_selection_v2.py:83-87 | Over every promotion run the selection has at most 800 tokens more than it has without the promoted records. |
| `BoundedSelection.TurnedDownIff` | bench/longmemeval/qa_selection_v2.py:180-197 | A candidate is turned down exactly if no eviction was found for it or its promotion, with that eviction, would add more than 800 tokens in all. |
| `BoundedSelection.EvictsTheLeastUseful` | bench/longmemeval/qa_selection_v2.py:172-177 | What is evicted is worth less than what could have been and is not, or as much and ranked lower. |
| `BoundedSelection.PromotesTheMostUseful` | bench/longmemeval/qa_selection_v2.py:200-217 | An outsider that was worth more than the one promoted, or as much and ranked higher, had been turned down. |
| `BoundedSelection.EvictedByBetter` | bench/longmemeval/qa_selection_v2.py:172-197 | Every evicted record has lower utility than the candidate that displaced it. |
| `BoundedSelection.PromotionRunFinishes` | bench/longmemeval/qa_selection_v2.py:205-232 | With a monotone counter the final repack of a promotion run cannot raise. |
| `BoundedSelection.BaselineById` | bench/longmemeval/qa_selection_v2.py:128-134 | Finding the baseline by record id gives exactly the ranks first fit kept. |
| `BoundedSelection.Selection.constructor` | bench/longmemeval/qa_selection_v2.py:128-134 | Selection starts as the baseline with no promotions or evictions. |
| `BoundedSelection.Selection.SmallestFittingEviction` | bench/longmemeval/qa_selection_v2.py:147-169 | The binary search over eviction prefixes. |
| `BoundedSelection.Selection.RemovableList` | bench/longmemeval/qa_selection_v2.py:172-177 | Unprotected baseline records of lower utility, least useful first. |
| `BoundedSelection.Selection.TryCandidate` | bench/longmemeval/qa_selection_v2.py:180-197 | Accept the candidate with its evictions, or leave everything as it was. |
| `BoundedSelection.Selection.RankedOutsiders` | bench/longmemeval/qa_selection_v2.py:200-202 | Outsiders by utility, then rank. |
| `BoundedSelection.Selection.RunPromotions` | bench/longmemeval/qa_selection_v2.py:205-217 | At most two rounds, each promoting the best outsider not turned down; it stops early only when all are. |
| `BoundedSelection.Selection.TryInOrder` | bench/longmemeval/qa_selection_v2.py:205-217 | The first outsider in order that is accepted. |
| `BoundedSelection.SelectBounded` | bench/longmemeval/qa_selection_v2.py:220-232 | The whole selector, from packing to the final repack. |
| `BoundedSelection.SelectBoundedCanRefuse` | bench/longmemeval/qa_selection_v2.py:220-232 | With that counter the second selector promotes the dropped record for nothing and raises too, whatever the utility. |
| `EntityMatch.FindIsLeftmost` | loomem-core/src/entity_extractor.rs:284-311 | A search returns the leftmost occurrence, and none exactly if there is none. |
| `EntityMatch.HitOrShadowed` | loomem-core/src/entity_extractor.rs:284-311 | A place is hit exactly if the name occurs there and no earlier hit reaches over it, even one that failed the word test. |
| `EntityMatch.EmptyNameNeverAdvances` | loomem-core/src/entity_extractor.rs:284-311 | With an empty name the search would stay at one place: why names must be nonempty. |
| `EntityMatch.MatchesFromMeans` | loomem-core/src/entity_extractor.rs:284-311 | Candidates of a name are exactly its word-bounded hits. |
| `EntityMatch.CandidateMeans` | loomem-core/src/entity_extractor.rs:284-311 | A candidate spells a known name, no word character touches it, and no earlier hit of its name reaches over its start. |
| `EntityMatch.SpanDetermines` | loomem-core/src/entity_extractor.rs:315-322 | Two candidates with one span are the same, so sorting by position leaves one order. |
| `EntityMatch.OverlapMeansShared` | loomem-core/src/entity_extractor.rs:324-334 | The overlap test is true exactly if the spans share a position. |
| `EntityMatch.AcceptLaw` | loomem-core/src/entity_extractor.rs:324-334 | Going through sorted candidates accepts disjoint ones, and each rejected one overlaps an accepted one that starts earlier or is longer. |
| `EntityMatch.DedupLaw` | loomem-core/src/entity_extractor.rs:336-340 | Each accepted name is reported once, at its first place. |
| `EntityMatch.DedupKeepsFirstPlaces` | loomem-core/src/entity_extractor.rs:336-340 | Entities are reported as their name is first met, in the order of those first places. |
| `EntityMatch.ExtractionLaw` | loomem-core/src/entity_extractor.rs:276-341 | What an extraction accepts: disjoint word-bounded known names, left to right, beating every other candidate. |
| `EntityMatch.ExtractionIsUnique` | loomem-core/src/entity_extractor.rs:276-341 | The result does not depend on the order the dictionary is iterated in. |
| `EntityMatch.Extract` | loomem-core/src/entity_extractor.rs:276-341 | The program computes such an extraction from keys in any order. |
| `EntityMatch.CollectMatches` | loomem-core/src/entity_extractor.rs:281-313 | Collects exactly the candidates, each once. |
| `EntityMatch.HitsOf` | loomem-core/src/entity_extractor.rs:284-311 | The inner search loop over one name. |
| `EntityMatch.KeepLongest` | loomem-core/src/entity_extractor.rs:324-334 | The pass that skips overlapping candidates. |
| `EntityMatch.FirstOfEachName` | loomem-core/src/entity_extractor.rs:336-340 | The pass that keeps one entry a name. |
| `Clustering.UpdateCentroid` | loomem-core/src/consolidation.rs:116-121 | Moves the coordinates both vectors have and leaves the others. |
| `Clustering.BestMeans` | loomem-core/src/consolidation.rs:148-157 | The scan finds the first group of highest similarity, and none when all are at most -1. |
| `Clustering.HomeIff` | loomem-core/src/consolidation.rs:148-173 | A chunk joins a group exactly if it is the first of the most similar ones, above -1, and reaches the threshold. |
| `Clustering.GroupsAreHomes` | loomem-core/src/consolidation.rs:144-181 | Every group is nonempty and holds exactly the chunks sent to it, in input order. |
| `Clustering.GroupingPartitions` | loomem-core/src/consolidation.rs:125-181 | Every input chunk is in exactly one group and each group is a subsequence of the input; no group is empty unless the input is. |
| `Clustering.GroupsAreDisjoint` | loomem-core/src/consolidation.rs:125-181 | Distinct chunks make disjoint groups. |
| `Clustering.CentroidsAreMeans` | loomem-core/src/consolidation.rs:116-173 | In every coordinate all members share, a centroid is exactly the mean of its group, after every step. |
| `Clustering.NearestGroup` | loomem-core/src/consolidation.rs:148-157 | The loop over the groups. |
| `Clustering.Separate` | loomem-core/src/consolidation.rs:130-138 | The loop that splits off chunks without an embedding. |
| `Clustering.Grow` | loomem-core/src/consolidation.rs:144-173 | The loop that places chunks one by one. |
| `Clustering.ClusterBySimilarity` | loomem-core/src/consolidation.rs:125-181 | The whole function, with its catch-all group. |
| `Consolidation.ChunkStore.constructor` | loomem-core/src/storage.rs:772-800 | A store of raw chunks and summaries. |
| `Consolidation.ChunkStore.Mark` | loomem-core/src/storage.rs:803-837 | The three marking loops: chunks before a failing write are changed, the rest are not, missing ones are skipped. |
| `Consolidation.ChunkStore.Persist` | loomem-core/src/consolidation.rs:823-842 | Storing a summary, which can reach the store although the write as a whole fails. |
| `Consolidation.ChunkStore.RecoverOrphaned` | loomem-core/src/storage.rs:994-1020 | The start-up recovery releases and counts every live leased chunk in key order, skips deleted ones, and stops at the first write that fails. |
| `Consolidation.InProgressGuard.constructor` | loomem-core/src/consolidation.rs:394-401 | A new guard is armed. |
| `Consolidation.InProgressGuard.Disarm` | loomem-core/src/consolidation.rs:405-407 | Disarming. |
| `Consolidation.InProgressGuard.Drop` | loomem-core/src/consolidation.rs:410-418 | Dropping an armed guard releases exactly its chunks; a disarmed one does nothing. |
| `Consolidation.ProcessSubGroup` | loomem-core/src/consolidation.rs:538-905 | One sub-group through every exit: mark failure, budget stop, error, rejection, failed persist, drop at an await, failed marking, success. |
| `Consolidation.VisitMeans` | loomem-core/src/consolidation.rs:538-905 | Which chunks a visit marks consolidated or leaves leased, and the endings that leave a summary of its chunks in the store. |
| `Consolidation.VisitedIff` | loomem-core/src/consolidation.rs:521-575 | A sub-group is visited exactly if it has the minimum size, is not cancelled, and no such group before it was cancelled, met a spent budget or was dropped. |
| `Consolidation.VisitsAreGroups` | loomem-core/src/consolidation.rs:521-906 | The visits of a stream are its big enough sub-groups in order, each with the ending that awaits it. |
| `Consolidation.ProcessStream` | loomem-core/src/consolidation.rs:521-906 | The loop over one stream's sub-groups makes exactly those visits and ends as the last of them does. |
| `Consolidation.Scan` | loomem-core/src/storage.rs:772-800 | Eligible chunks in key order up to the limit. |
| `Consolidation.CandidatesComeFirst` | loomem-core/src/storage.rs:772-800 | The candidates are in key order, and none is taken while an eligible one before it is left out. |
| `Consolidation.OfStream` | loomem-core/src/consolidation.rs:471-475 | One stream's candidates in order. |
| `Consolidation.GroupStream` | loomem-core/src/consolidation.rs:476-519 | The sub-groups of a stream: none below the minimum, at most a batch of chunks, clustered. |
| `Consolidation.GroupedIff` | loomem-core/src/consolidation.rs:476-519 | A chunk is in some group exactly if its stream has enough candidates and it is among the first batch of them. |
| `Consolidation.Consolidate` | loomem-core/src/consolidation.rs:424-906 | A whole pass makes exactly the visits of its streams in order, up to a cancellation or a drop; they are of disjoint single-stream groups of eligible chunks, and the store ends as they leave it. |
| `Consolidation.PassIsLawful` | loomem-core/src/consolidation.rs:424-906 | Every visit of a pass is of a big enough group of chunks of its own stream that were eligible at the start, and no chunk is visited twice. |
| `Consolidation.BudgetStopsThePassIff` | loomem-core/src/consolidation.rs:573-577 | After a spent budget nothing more is visited exactly if no later stream the pass comes to has an uncancelled first group of the minimum size. |
| `Consolidation.PassGoesOnAfterBudget` | loomem-core/src/consolidation.rs:573-577 | A pass over two streams, each with between the minimum and a batch of eligible chunks without embeddings: the first meets a spent budget, and the second is leased and processed all the same, however it ends. |
| `Consolidation.DroppedEndsThePass` | loomem-core/src/consolidation.rs:424-906 | A pass ends for good at the first stream whose last visit was dropped, and goes on with the rest after any other. |
| `Consolidation.RunOutcome` | loomem-core/src/consolidation.rs:388-906 | However a pass ends, a chunk is left in progress exactly if it was before or a marking failed after reaching it, and newly consolidated exactly if some visit finished it. |
| `Consolidation.NothingStrandedIff` | loomem-core/src/consolidation.rs:538-551 | No lease is left behind exactly when no marking failed after its first chunk. |
| `Consolidation.MarkingCanStrand` | loomem-core/src/consolidation.rs:538-551 | A concrete pass that leaves a lease behind. |
| `Consolidation.StrandedUntilRecovery` | loomem-core/src/scheduler.rs:155-186 | A lease left on a chunk stays through any events, passes included, exactly if the chunk is deleted or no start-up recovery gets to it while it is live. |
| `Consolidation.RecoveryFreesTheLive` | loomem-core/src/storage.rs:994-1020 | A whole recovery leaves no live chunk leased, and a live chunk eligible again exactly if it is ready and not consolidated. |
| `Consolidation.SummariesStayInStream` | loomem-core/src/consolidation.rs:656-667 | Summaries are only added, each from enough eligible chunks of its own stream. |
| `Consolidation.ConsolidatedHasSummary` | loomem-core/src/consolidation.rs:823-900 | A chunk is newly consolidated only when a stored summary of its own stream lists it. |
| `AuditChain.VerifyChainBlobs` | loomem-core/src/audit.rs:187-222 | Reports Valid with the chained count exactly if no row is flawed, otherwise the first flawed row and its flaw. |
| `AuditChain.LinkedMeans` | loomem-core/src/audit.rs:162-174 | A log checks out exactly if it is an unlinked prefix followed by rows that each name the one before. |
| `AuditChain.CutsAreUnseen` | loomem-core/src/audit.rs:187-222 | Cutting rows off the front or the back is never seen. |
| `AuditChain.SameEndSameLog` | loomem-core/src/audit.rs:187-222 | Two fully chained logs that check out and end in the same row agree from the end: the shorter is a suffix of the longer. |
| `AuditChain.ChainedRowsAreDistinct` | loomem-core/src/audit.rs:187-222 | No linked row repeats an earlier row of its log. |
| `AuditChain.AppendsVerify` | loomem-core/src/audit.rs:124-144 | Any run of appends in key order checks out, with every row after the first counted as chained. |
| `AuditChain.AppendVerifiesIff` | loomem-core/src/audit.rs:124-144 | After an append under a fresh key, a log that begins with an unlinked row still checks out exactly if the key is above all rows, or below all of them. |
| `AuditChain.FrontedVerifiesIff` | loomem-core/src/audit.rs:124-144 | A log with a linked row in front of its unlinked one still checks out exactly if the new row lands at the end. |
| `AuditChain.HistoryVerifiesIff` | loomem-core/src/audit.rs:124-144 | A history of appends under fresh keys checks out after every append exactly if each key sorts after all earlier ones, except at most one that sorts before them all. |
| `AuditChain.LogHoldsWhatWasAppended` | loomem-core/src/audit.rs:124-144 | However the keys fall, the log of a history under fresh keys holds exactly the events that were appended, with action, actor, time and details, each under its key. |
| `AuditChain.KeysSortIff` | loomem-core/src/storage.rs:1509-1526 | Row keys sort by time, and inside a second by sequence number exactly while the padded widths agree or the longer number's leading digits are no smaller. |
| `AuditChain.RowKeysSortIff` | loomem-core/src/storage.rs:1509-1526 | The real keys, of twenty digits of time, sort by time, and within one second by number below a million, then in 27 places. |
| `AuditChain.SequenceOverflowsItsPadding` | loomem-core/src/storage.rs:1509-1526 | Numbers count over the whole process: when the millionth and its predecessor fall in one second, for one user, the newer key sorts first. |
| `AuditChain.RestartSortsFirst` | loomem-core/src/audit.rs:72-83 | After a restart numbers start at zero: within one second that key is the same as the first one or sorts below every other. |
| `AuditChain.OverwriteVerifiesIff` | loomem-core/src/audit.rs:124-144 | An append under a key that is taken replaces that row; a log linked from its second row on still checks out exactly if it had only one row. |
| `AuditChain.AuditLog.constructor` | loomem-core/src/audit.rs:72-83 | An empty log with both counters at zero. |
| `AuditChain.AuditLog.Restart` | loomem-core/src/audit.rs:72-83 | A new process finds the rows and starts both counters at zero. |
| `AuditChain.AuditLog.PutRow` | loomem-core/src/storage.rs:1509-1526 | The store keeps rows in key order, one row a key. |
| `AuditChain.AuditLog.Append` | loomem-core/src/audit.rs:124-144 | Links to the row of the highest key, uses up a sequence number, stores the row, and counts a failure instead of storing. |
| `AuditChain.AuditLog.VerifyChain` | loomem-core/src/audit.rs:175-183 | A row that does not decrypt makes the verdict indeterminate, never broken. |
| `AuditChain.ReadOrDropped` | loomem-core/src/audit.rs:175-183 | Every row is read or counted as undecryptable, and the count is zero exactly if there is none. |
| `HistorySplits.QuestionIndex` | bench/longmemeval/experiment.py:39-50 | Succeeds exactly if ids are unique and nonempty, categories nonempty and histories well formed; otherwise the first question that is not decides, by its id, its category or its history. |
| `HistorySplits.GroupByHistory` | bench/longmemeval/experiment.py:56-58 | Each group lists once exactly the questions with its history. |
| `HistorySplits.ByRank` | bench/longmemeval/experiment.py:59-60 | Groups in rank order, each once. |
| `HistorySplits.MembersClosed` | bench/longmemeval/experiment.py:64-67 | A selection of groups contains a question exactly if it contains all of its history group. |
| `HistorySplits.Picker.constructor` | bench/longmemeval/experiment.py:60-62 | The selection starts empty with every group available. |
| `HistorySplits.Picker.Take` | bench/longmemeval/experiment.py:64-67 | Taking a group adds its questions, updates the category counts and removes it from what is available. |
| `HistorySplits.Picker.First` | bench/longmemeval/experiment.py:77-84 | The first fitting group in rank order that offers what is wanted. |
| `HistorySplits.Picker.AbstentionPass` | bench/longmemeval/experiment.py:69-76 | Afterwards every category has an abstention question taken unless none of its remaining groups fits. |
| `HistorySplits.Picker.Choose` | bench/longmemeval/experiment.py:77-86 | Serves the least-served category any fitting group can serve; nothing only when no group fits. |
| `HistorySplits.FillPickMeans` | bench/longmemeval/experiment.py:77-88 | What a fill pick is: a fitting group for the category served least, the earlier in the alphabet of two served alike, and of its groups the lowest-ranked. |
| `HistorySplits.Picker.Fill` | bench/longmemeval/experiment.py:77-88 | The fill ends on every input, with exactly the size or with no group left that fits. |
| `HistorySplits.BalancedIds` | bench/longmemeval/experiment.py:53-89 | Exactly `size` sorted ids closed under shared history, every pick accounted for by rank and need, or a refused size, or no group left that fits. |
| `HistorySplits.ExtensibleSucceeds` | bench/longmemeval/experiment.py:53-89 | Whatever the categories and abstentions, every rank succeeds if each choice of whole groups short of the size leaves a group that fits. |
| `HistorySplits.OneCategorySucceedsIff` | bench/longmemeval/experiment.py:53-89 | For one category without abstentions this is exact: otherwise there is a ranking of the histories under which the choice cannot but fail. |
| `HistorySplits.UniformSucceedsIff` | bench/longmemeval/experiment.py:77-88 | A special case: with histories shared by k questions each, a split is found exactly if k divides the size. |
| `HistorySplits.FillCanMissAnExactSplit` | bench/longmemeval/experiment.py:92-99 | Seven well-formed questions whose dev split of four is refused although two whole groups add up to four. |
| `HistorySplits.SplitIndex` | bench/longmemeval/experiment.py:92-101 | Dev and evaluation partition the index, pilot is inside dev, sizes are exact, no history group is cut anywhere, and any failure is the first of the dev and the pilot choice. |
| `HistorySplits.SplitOutcomeMeans` | bench/longmemeval/experiment.py:92-101 | A dev split that leaves nothing is refused as such, any other impossible size as a bad size, and what is left to fail is only a fill that got stuck. |
| `HistorySplits.MakeSplits` | bench/longmemeval/experiment.py:92-105 | The same from the questions themselves, with the malformed ones refused first. |
| `EpochFence.StepKeepsInv` | loomem-core/examples/hosted_poc_worker.rs:430-537 | Every command keeps: no context ahead of its scope, and contexts with running jobs at their scope's epoch. |
| `EpochFence.ReachableInv` | loomem-core/examples/hosted_poc_worker.rs:430-537 | The same over every run. |
| `EpochFence.EpochNeverFalls` | loomem-core/examples/hosted_poc_worker.rs:118-137 | No scope's epoch ever falls. |
| `EpochFence.OpenFencesOlder` | loomem-core/examples/hosted_poc_worker.rs:118-144 | After an open at an epoch, whatever happens next, a lower epoch of that scope gets nothing and changes nothing. |
| `EpochFence.OnlyCurrentSucceeds` | loomem-core/examples/hosted_poc_worker.rs:518-537 | A command other than an open succeeds only for a context open at its scope's current epoch. |
| `EpochFence.JobsCanBeAwaited` | loomem-core/examples/hosted_poc_worker.rs:504-516 | In every reachable state a running job can be awaited, giving its own outcome and forgetting only it. |
| `EpochFence.RootIsPinned` | loomem-core/examples/hosted_poc_worker.rs:430-456 | While a job runs, its root, its outcome and its scope's epoch stay, over any run of commands. |
| `EpochFence.JobsLeaveByAwait` | loomem-core/examples/hosted_poc_worker.rs:467-516 | A job leaves only by being awaited under its own context. |
| `EpochFence.RefusalChangesNothing` | loomem-core/examples/hosted_poc_worker.rs:430-537 | A refusal changes nothing, except that awaiting a failed job forgets it; no command touches another scope. |
| `EpochFence.OpenSucceedsIff` | loomem-core/examples/hosted_poc_worker.rs:58-137 | An open succeeds exactly if the directory may serve the context, its epoch is not behind, no job of the scope would be overtaken and none runs under the context; otherwise the reply says which. |
| `EpochFence.OpenPointsAtTheDirectory` | loomem-core/examples/hosted_poc_worker.rs:430-456 | An open that succeeds raises the scope epoch to its own and points the context, without jobs, at the directory. |
| `EpochFence.CommandMeans` | loomem-core/examples/hosted_poc_worker.rs:467-537 | What every other command answers and leaves behind, told by its own arguments and the jobs of its context. |
| `EpochFence.SharedEngine.constructor` | loomem-core/examples/hosted_poc_worker.rs:582-597 | An engine with no contexts and no epochs. |
| `EpochFence.SharedEngine.AdvanceScopeEpoch` | loomem-core/examples/hosted_poc_worker.rs:118-137 | Raise a scope's epoch unless it is stale or jobs are running; otherwise leave it. |
| `EpochFence.SharedEngine.AnyJobs` | loomem-core/examples/hosted_poc_worker.rs:127-133 | Whether any context (of a scope) has a running job. |
| `EpochFence.SharedEngine.OpenScope` | loomem-core/examples/hosted_poc_worker.rs:430-456 | Check the root, advance the epoch, and point an idle context at the root. |
| `EpochFence.SharedEngine.SpawnBuild` | loomem-core/examples/hosted_poc_worker.rs:467-502 | Start a job under a name not taken. |
| `EpochFence.SharedEngine.AwaitJob` | loomem-core/examples/hosted_poc_worker.rs:504-516 | Remove a job and hand back its outcome. |
| `EpochFence.SharedEngine.Perform` | loomem-core/examples/hosted_poc_worker.rs:518-537 | The dispatcher. |
| `EpochFence.SharedEngine.MayShutDown` | loomem-core/examples/hosted_poc_worker.rs:599-604 | Shutting down is allowed exactly when nothing is running. |

## Left out

- PaidCall.RerunConverges: assumes the confirmed cost is inside the reservation; `PaidCall.RerunReturnsIff` and `PaidCall.OverrunAlwaysRaises` cover the other cases.
- PaidCall.AtMostOneCall: takes request hashes and generated tokens to be collision-free, and each durable write to be one step.
- Budget.Units: does not model Python's rounding context; an accepted amount is exact in the model.
- IntentLog.RecoveryIsExact: assumes no torn partial line, no line that is not UTF-8 (opening fails on one) and no read error inside a file that was opened.
- IntentLog.RecoveryNeverLoses: makes the same assumptions; clean-ups that drop the last copy of an unresolved entry, by age or unopened, are what its condition excludes.
- IntentLog.GcCanBringBack: for file sizes whose lines the 64-bit counter can number.
- IntentLog.IntentLog.MaybeRotate: does not model a failure to reopen the current file after the rename, nor the rotation counter wrapping at 2^64.
- DreamTrust.TrustOverHistories: leaves out hard purges, after which a link can name a chunk that is gone, storage faults inside one supersede and the server's two-phase plan and commit of a supersede.
- MemoryChain.HistoryIsTheSameFromEveryMember: covers creates, soft deletes and supersedes of the current version by one new chunk; dream runs merge chains and are covered by `MemoryChain.AnyGraph` only.
- BoundedSelection.PromotionRun: utilities are reals and uninterpreted; the cache of fit tests is not modelled.
- GreedySelection.PickNext: scores are reals and uninterpreted.
- EntityMatch.Extract: positions count characters, not bytes, and lower-casing is done before; names must be nonempty, as the search does not end otherwise.
- Clustering.CentroidsAreMeans: over the reals, without rounding; similarity is uninterpreted, and centroids are replaced as values rather than updated in place.
- Consolidation.RunOutcome: assumes clearing leases succeeds and nobody else changes the leased chunks during the pass; `Consolidation.StrandedUntilRecovery` speaks of what happens between passes.
- Consolidation.StrandedUntilRecovery: events are passes, start-up recoveries and soft deletes; hard deletes, restores and other writers of a chunk are left out.
- AuditChain.SameEndSameLog: assumes the rows at hand have no hash collision; encryption is only whether a row decrypts.
- AuditChain.AppendsVerify: appends come one at a time; two appenders for one user at once are not modelled.
- HistorySplits.BalancedIds: takes the ranks of the different history digests at hand to be different; which order a seed gives them is left open, and `history` to be the digest already computed.
- EpochFence.SharedEngine.Perform: request parsing and the file system's answers about a root are inputs; what a job builds is left out.
- Queue.FlushedInOrder: what a flush embeds or extracts, and worker panics, are left out.
- PaidEntries.ConfigOk: models the checks on model, tier, window, completion limit and prices; temperature, seed, timeout and prices finer than a unit per token are left out.
- PaidPolicy.PolicyKeepsLimitsIff: speaks of reservations below 100 dollars, so that the limit the converse needs is an amount of money the ledger accepts; `PaidPolicy.UncoveredEscapes` covers every reservation for which it is one.
- HTTP, prompts, JSON and command lines of paid calls.
- RocksDB, Tantivy, encryption and fsync below the level of an atomic write; the intent log's recovery submodule is not part of this model.
- Relation finding and alias resolution of the entity extractor, quality gates, cost tables, event dates and status counters: easy members only.
- Counters and reports of a consolidation pass.
