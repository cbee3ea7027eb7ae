# Mail archive: a verified model

This project models the destructive half of the mail archive and the local state that has to stay true
around it, and proves what the program promises about them. Everything is checked by the Dafny verifier;
`dafny verify dfyconfig.toml` checks all of it.

## What is modelled

**Vocabulary** (`Base`, `Verdicts`, `Targets`). Bytes, digests, adapter verdicts and their normalization.
A digest is a constructor around the hashed bytes: SHA-256 is taken to be injective. Provider identities
(a Gmail message id, a UIDVALIDITY with a UID, a POP3 unique-id) are never reused.

**Planning and fingerprints** (`Planning`, `Fingerprint`). The planning loop against the greedy optimum it
should reach, the executor's limit gate, and the exact JSON text that is hashed into a fingerprint.

**The engine** (`Engine`, `EngineSafety`, `EngineHistory`, `EngineTheorems`, `EngineLimits`,
`EngineExclusion`, `EngineDrive`, `EngineCollision`, `EngineCrash`, `Executor`). Plan, execute, record and
reconcile as a step system. One step is one committed
transaction, one read or one provider call of one process, so crashes and any interleaving of executors,
reconcilers, local maintenance and mailbox changes fall between any two of them. Adapters and observers
may answer anything, malformed results and exceptions included. The results range over every execution
of every length. `EngineDrive` brings a plan to the call of any of its rows, from any state; with it
`EngineCollision` and `EngineCrash` show that what is not excluded does happen. `Executor` is the serial
loop itself, taking the same steps while others act.

**The three deletion adapters** (`ImapMutation`, `Pop3Mutation`, `GmailMutation`). Each is a class that
drives a server object and is proved against it. The servers obey their standard and may lose any reply:
IMAP with UID EXPUNGE (section 2.1 of RFC 4315, section 2.3.1.1 of RFC 3501), POP3 (sections 5, 6 and 7
of RFC 1939), and Gmail's DELETE and GET. A command's effect is independent of its reply, and other
clients may touch the target at any moment. Two directions are proved of each deletion. Against the
hostile server its verdicts are sound, its mutating commands are few and in order, and nothing but the
target is touched. Against a server called cooperative, which answers everything and has no other
clients, its outcome is determined case by case, so an adapter that refused to work would not satisfy
the contract either.

**Engine and adapters together** (`Deployment`, `DeployedRun`). The executor's attempt on one row carried
out by each of the three adapters, and a reconciliation's look by each of their observers: the calls and
looks are honest in the engine's sense, and the status a row ends with is true of the provider's server.
`DeployedRun` drives the whole loop with an adapter, which is asked for the message that each row's own
facts name; that succeeded means gone then needs no assumption, about other processes or about the server.

**POP3 presence** (`Pop3Presence`). Synchronizations, deletions and reconciliations of one account,
interleaved around the shared lock, with recording after the lock is released.

**Gmail synchronization** (`GmailHistory`, `GmailService`, `GmailRows`, `GmailSync`). A mailbox is its
change history. `GmailHistory` proves the algebra of racing listings and replays, `GmailRows` that of
presence rows which synchronization and reconciliations write side by side. `GmailSync` is the
synchronizing object with its paging loops, its commits and every way to stop between them; between any
two requests the mailbox may change, and before any commit reconciliations may record what they saw.

**Acquisition and storage** (`Pop3Wire`, `ImapSync`, `MoveExact`, `Lifecycle`). The POP3 wire codec
against a pure decoder, IMAP linking, the crash-safe move on a disk that keeps a trace of all its states,
and the lifecycle driven by verdicts.

**Backups and the watcher** (`Manifest`, `Backup`, `Watcher`). Snapshots, manifests, verification and
evidence against an external repository whose contents may decay; the IDLE loop's timing law and the
reconnection backoff.

Classes stand where the source updates objects, rows or files in place; a table is a map field and one
assignment is one commit. Nondeterministic choices (`*`) stand for the network, other processes, the
clock and failures.

## What does not hold

Eight things the program or its documentation might be expected to promise are false of the code. The
code is modelled as it is; each is shown by a counterexample and by the exact condition under which the
promise holds.

1. `docs/REMOTE_DELETION_RUNBOOK.md:110-130` presents reconciliation as the way out of a crash. A crash
   between the `started` commit and the recording of the outcome leaves the run `planned`, and
   reconciliation accepts only `halted` runs. Such states are reached for any message
   (`EngineCrash.OrphansAreReached`), and the target then stays blocked for every later plan
   (`EngineCrash.CrashedTargetStaysBlocked`). An unresolved row can be reconciled if and only if its
   outcome was recorded as unknown (`EngineCrash.ReconcilableIffUnknown`): the branch for `started` rows
   is never taken.
2. The unresolved-target check and the later insert are not one transaction, and a row that is still
   planned does not block other plans. Wherever two processes are, with their plans validated or their runs
   under way, both can come to have a call in flight for one message if and only if they work on different
   plans and each may still call for that message (`EngineCollision.CollisionIffShared`); it is reached for
   any message (`EngineCollision.OverlappingExecutorsCollide`). As long as no plan is validated while
   another process may still start a call for one of its messages, no message ever has two unresolved rows,
   however executors overlap (`EngineExclusion.ApartExecutorsExclude`), and that premise is needed
   (`EngineCollision.StartingApartIsNeeded`).
3. A confirmed and recorded absence can be undone: not by a synchronization or a deletion
   (`Pop3Presence.SlowFailureIsHarmless`), but by a reconciliation that looked before the message went and
   records after (`Pop3Presence.TwoReconciliationsRevive`, `GmailSync.LateSightingMisleads`). A recorded POP3
   absence survives every continuation if and only if, at that moment, no observation has seen the message
   without having been recorded yet (`Pop3Presence.AbsenceSurvivesIff`).
   Recording a Gmail sighting keeps the promise of the stored point if and only if that promise is void,
   the row is unknown, the message was there at the point, or something has touched it since
   (`GmailSync.Account.RecordPresence`); a row spoilt that way is repaired by the next full
   synchronization, and by no replay that begins after the removal (`GmailSync.GoneIsNeverTouched`).
4. A full Gmail synchronization of an empty mailbox succeeds without marking anything absent: the rows
   match the mailbox if and only if none was present (`GmailSync.Account.Full`).
5. `docs/DECISIONS.md:211-215` calls pending state locally recoverable. A crash after the source was
   unlinked and before the row was committed leaves the bytes safe but in a place pending recovery does
   not look; it refuses for ever (`Lifecycle.PendingRecoveryFails`). Applying a verdict directly succeeds
   if and only if the bytes are at the place the row names or the place the verdict calls for
   (`Lifecycle.Message.Apply`).
6. The fingerprint does not cover the account's display name (`Fingerprint.FingerprintDecides` is an
   equivalence with everything else).
7. Decoding and encoding a POP3 response again gives the stream back only if no line of it started with an
   undoubled dot; such a line is accepted and kept (`Pop3Wire.EncodeDecode`).
8. A Gmail DELETE that has timed out and is still in flight can be carried out after the confirming look
   (`GmailMutation.RejectedThenCarriedOut`). The verdict "confirmed, no mutation" on a DELETE that was sent
   is final if and only if nothing is in flight when it is given (`GmailMutation.StandsIffSettled`), and
   every such verdict is final if and only if the service settles a request by the time it has been answered or
   timed out and nothing was in flight before (`GmailMutation.RejectionsStandIff`).

## Model

| member | source | states |
|---|---|---|
| Verdicts.NormalizeIsFaithful | src/mailarchive/remote_mutation.py:86-110 | a coherent verdict is recorded under its own status; nothing is recorded as succeeded unless the adapter confirmed absence |
| Fingerprint.ObjectTextInjective | src/mailarchive/remote_mutation.py:38-39 | the compact JSON text of an object, with every escape it may need, determines its fields: no two different payloads serialize alike |
| Fingerprint.FingerprintDecides | src/mailarchive/remote_mutation.py:28-64 | two targets have equal serialized payloads if and only if account, kind, remote id, canonical id, hash and all identity facts agree |
| Planning.PlanDryRun | src/mailarchive/remote_mutation.py:203-264 | the loop selects exactly the smaller of the run limit and the sum over accounts of what each may contribute, as a subsequence of the eligible rows; a row is passed over exactly if its account had reached its cap by then, which is what the account counter counts, or the plan was full; selected plus skipped is eligible |
| Planning.SingleAccountPlanPasses | src/mailarchive/remote_mutation.py:749-760 | a plan for one account passes the executor's limit gate if and only if neither configured limit has been lowered below the plan's own |
| EngineSafety.StepKeepsRunsOk | src/mailarchive/remote_mutation.py:524-1030 | every step of every process keeps the shape of all runs, the place of every process in its run, one executor per run and one run per plan |
| EngineHistory.ExecutionKeepsInv | src/mailarchive/remote_mutation.py:707-1030 | the whole invariant, with the evidence behind every provider call, holds in every state of every execution |
| EngineTheorems.AtMostOneCallPerPlanRow | src/mailarchive/remote_mutation.py:721-923 | under crashes and concurrent executors a source-plan row leads to at most one provider call |
| EngineTheorems.EveryCallIsAuthorized | src/mailarchive/remote_mutation.py:616-646 | each call follows, with no other call of its run in between, an evaluation that found this exact target eligible, remote row and canonical object alike, a check of its fingerprint, and a committed started state |
| EngineTheorems.CallsAreBounded | src/mailarchive/remote_mutation.py:749-760 | a run makes no more provider calls than it has rows |
| EngineLimits.RunsCloneTheirPlans | src/mailarchive/remote_mutation.py:800-836 | in every execution a production run has exactly the rows of its plan, with their targets and fingerprints |
| EngineLimits.CallsStayWithinEveryCap | src/mailarchive/remote_mutation.py:749-760 | in every execution a run has passed the limit gate, and makes no more provider calls than the smallest of the caps its plan was stored with and those configured when it was validated |
| EngineTheorems.EveryRunHasTheShape | src/mailarchive/remote_mutation.py:858-1030 | in row order: succeeded rows, at most one other, then planned ones; completed means all succeeded; a halted run has nothing in flight and at most one unresolved row |
| EngineTheorems.ReconciliationIsConfined | src/mailarchive/remote_mutation.py:524-613 | an observation changes at most one unresolved row of a run that stays halted, and presence only where the current identity is the historical one |
| EngineTheorems.ReconciliationIsAsAnswered | src/mailarchive/remote_mutation.py:572-595 | a confirmed absence marks the row succeeded and its message absent, a confirmed presence marks the row failed and its message present, the latter half each time exactly on the local row that still has the historical identity; any other answer changes neither |
| EngineTheorems.OutcomeIsAsAnswered | src/mailarchive/remote_mutation.py:976-1011 | an executor records the normalized status of the answer on its row alone, marks the message absent exactly if that is success, and otherwise halts the run; an exception is recorded as unknown |
| EngineTheorems.SucceededMeansGone | src/mailarchive/remote_mutation.py:976-1030 | with honest adapters and observers a row ever marked succeeded, by execution or reconciliation, names a message that is absent then and for ever |
| EngineCrash.OrphanStaysForEver | src/mailarchive/remote_mutation.py:535-536 | a row left started by a crash is never moved again by anything |
| EngineCrash.CrashedTargetStaysBlocked | src/mailarchive/remote_mutation.py:775-783 | after such a crash the run can never be reconciled and no plan containing the target is ever validated |
| EngineCrash.OrphansAreReached | src/mailarchive/remote_mutation.py:884-909 | for any message there is an execution that ends with its row started, its run planned and its executor gone |
| EngineCrash.ReconcilableIffUnknown | src/mailarchive/remote_mutation.py:533-540 | in every execution an unresolved row can be reconciled if and only if its outcome was recorded as unknown, and then reconciliation takes it up |
| EngineExclusion.ApartExecutorsExclude | src/mailarchive/remote_mutation.py:775-836 | however executors overlap, if no plan is validated while another process may still start a call for one of its messages, no two unresolved rows of any runs name the same remote message |
| EngineCollision.CollisionIffShared | src/mailarchive/remote_mutation.py:775-923 | any two processes in any state, plans validated or runs under way, can both come to have a call in flight for one message if and only if they work on different plans and each may still call for it |
| EngineCollision.SharedMessageCollides | src/mailarchive/remote_mutation.py:775-923 | whenever that is so, an execution continues to two started rows and two calls in flight for the message |
| EngineCollision.StartingApartIsNeeded | src/mailarchive/remote_mutation.py:775-836 | whenever a plan is validated while another process may still start a call for one of its messages, two unresolved rows for that message can follow |
| EngineCollision.OverlappingExecutorsCollide | src/mailarchive/remote_mutation.py:775-836 | for any message there is an execution in which two overlapping executors both have a call in flight for it, with two started rows |
| Executor.Database.ExecuteRow | src/mailarchive/remote_mutation.py:877-923 | one pass goes on only if exactly the picked row has become succeeded, and otherwise leaves the run halted |
| Executor.Database.ExecuteSerial | src/mailarchive/remote_mutation.py:858-923 | whatever others do meanwhile, the loop ends with the run completed, all rows succeeded, or halted with the shape above |
| Deployment.Conclude | src/mailarchive/remote_mutation.py:909-923 | a call whose answer is true of the mailbox is an honest step of the engine, its row gets the status of the answer, and the executor goes on exactly if that is success |
| Deployment.AttemptByGmail | src/mailarchive/remote_mutation.py:888-923 | carried out by the Gmail adapter, a row ends succeeded only if the message is gone at the service and for the engine, and failed only if no DELETE was sent or the message was last seen there; a cooperative service leads to success |
| Deployment.AttemptByImap | src/mailarchive/remote_mutation.py:888-923 | the same with the IMAP adapter: succeeded only if gone from its own namespace, failed only if nothing was stored or the message is there unflagged |
| Deployment.AttemptByPop3 | src/mailarchive/remote_mutation.py:888-923 | the same with the POP3 adapter: succeeded only if gone, failed only if no DELE was sent or the message is there with no removal owed |
| DeployedRun.AttemptRow | src/mailarchive/remote_mutation.py:172-199 | the adapter of the account is asked for the message that the row's own facts name, with the digest the row carries, in its permitted conversation; the row succeeds only if that message is absent at the server, and a target the adapter does not serve is refused with nothing sent |
| DeployedRun.ExecuteRun | src/mailarchive/remote_mutation.py:858-924 | the whole loop through an adapter ends completed or halted in the proven shape, targets unchanged, and every row it marked succeeded names a message that is gone, whatever the server and the other processes do |
| DeployedRun.ExecutePlan | src/mailarchive/remote_mutation.py:800-855 | from the insertion of its run on, a plan ends with a run of its own targets whose succeeded rows name messages gone for good, and a completed run has removed every message of the plan |
| Deployment.ObserveByGmail | src/mailarchive/remote_mutation.py:564-568 | a reconciliation's look through the Gmail observer is honest, and its definite answers are true of the service |
| Deployment.ObserveByImap | src/mailarchive/remote_mutation.py:564-568 | the same with the IMAP observer |
| Deployment.ObserveByPop3 | src/mailarchive/remote_mutation.py:564-568 | the same with the POP3 observer |
| ImapMutation.Adapter.Inspect | src/mailarchive/imap_mutation.py:281-314 | everything before the STORE only reads, in a session with the folder open, and its outcome is never unknown; each error code is given only for what it names; it lets a deletion through only after seeing the archived bytes unflagged, and on a cooperative server its answer is determined |
| ImapMutation.Adapter.CleanOrUnknown | src/mailarchive/imap_mutation.py:214-228 | after an unanswered STORE only a clean sighting is reported as no mutation, and on a cooperative server every clean sighting is |
| ImapMutation.Adapter.AfterExpunge | src/mailarchive/imap_mutation.py:230-278 | an EXPUNGE is resolved without a second one, by the same session or one fresh read-only one, and never reported wrongly |
| ImapMutation.Adapter.Delete | src/mailarchive/imap_mutation.py:280-349 | success means the UID is gone from the target's own namespace; a confirmed failure means no STORE was sent or the target was last seen present, byte-equal and unflagged; the outcome is unknown only if a STORE was sent; at most one STORE and one EXPUNGE; every other message untouched; nothing is sent for what must be refused; carried out exactly when it should be on a cooperative server |
| ImapMutation.Adapter.Observe | src/mailarchive/imap_mutation.py:181-212 | observation mutates nothing, its two definite answers are true of the target's own namespace, what must be refused is answered without asking, and a cooperative server gets the answer its state determines |
| Pop3Mutation.ParseUidls | src/mailarchive/pop3_mutation.py:128-154 | accepts exactly the listings without malformed lines, repeats or impossible unique-ids, and not a non-empty response that lists nothing; calls a listing ambiguous exactly if its first fault is a repeat or an impossible unique-id |
| Pop3Mutation.Adapter.ObserveUnlocked | src/mailarchive/pop3_mutation.py:228-248 | a fresh session that never quits: absence and presence are reported truly |
| Pop3Mutation.Adapter.DeleteAndCommit | src/mailarchive/pop3_mutation.py:297-308 | one DELE, QUIT only after it was accepted, otherwise an abort, then the look that decides |
| Pop3Mutation.Adapter.Delete | src/mailarchive/pop3_mutation.py:273-315 | at most one DELE, QUIT only after its acceptance, abort without QUIT on every other path; the three verdicts match the maildrop with any reply lost, and the outcome is unknown only if a DELE was sent; carried out exactly when it should be on a cooperative server |
| Pop3Mutation.Adapter.Observe | src/mailarchive/pop3_mutation.py:259-271 | read-only, its two definite answers are true, what must be refused is answered without asking, and a cooperative server gets the answer its maildrop determines |
| Pop3Presence.OnlyAStaleSightingRevives | src/mailarchive/pop3.py:282-334 | in every interleaving only the recording of a sighting made before an absence was recorded can bring a recorded absence back |
| Pop3Presence.RowsAreWritten | src/mailarchive/pop3.py:296-322 | in every execution a synchronization marks present exactly messages of its listing, a recorded absence marks its own message absent, a recorded sighting its own present, and nothing else writes a row |
| Pop3Presence.OnlyARecordedAbsenceHides | src/mailarchive/remote_mutation.py:990-994 | a row goes from present to absent only by the record of a confirmed absence of that message, which is gone |
| Pop3Presence.LockIsHeldAtTheServer | src/mailarchive/pop3.py:34-58 | the lock is held exactly by the one process at the server, so it is free whenever that process has finished or died |
| Pop3Presence.AbsenceIsNeverUndone | src/mailarchive/pop3_mutation.py:259-315 | an absence recorded while no observation holds an unrecorded sighting of the message stays, under any synchronizations, deletions, reconciliations and crashes |
| Pop3Presence.AbsenceSurvivesIff | src/mailarchive/remote_mutation.py:564-588 | a recorded absence survives every continuation of an execution if and only if no observation then holds such a sighting |
| Pop3Presence.SlowFailureIsHarmless | src/mailarchive/remote_mutation.py:976-1030 | an execution in which a deletion has seen the message and not recorded its failure when the absence is recorded; nothing can undo that absence |
| Pop3Presence.TwoReconciliationsRevive | src/mailarchive/remote_mutation.py:524-613 | two overlapping reconciliations can mark a confirmed absent message present again |
| GmailMutation.Adapter.Confirmation | src/mailarchive/gmail_mutation.py:295-307 | the look after the DELETE is repeated once exactly if it was denied and the credentials could be renewed; the verdict is that of the last look or of the renewal, and is never wrong |
| GmailMutation.Adapter.Delete | src/mailarchive/gmail_mutation.py:321-346 | also while an earlier DELETE is in flight: at most one DELETE, straight after a look that showed the archived bytes, none for another account; success means gone; a confirmed failure means none was sent, or the message was last seen byte-equal and stays exactly if none is in flight any more; against every service the answer is determined by what was asked and answered, so without a DELETE the outcome is unknown only for a taken lock or an exception in renewing the credentials; carried out exactly when it should be on a cooperative service |
| GmailMutation.StandsIffSettled | src/mailarchive/gmail_mutation.py:303-307 | a message that is there stays, as far as the program's own requests go, if and only if no DELETE is in flight |
| GmailMutation.RejectedThenCarriedOut | src/mailarchive/gmail_mutation.py:342-346 | for any mailbox with the message, a DELETE can be answered by a confirmed failure and be carried out afterwards, unless the service is prompt and nothing was in flight |
| GmailMutation.RejectionsStandIff | src/mailarchive/gmail_mutation.py:342-346 | every confirmed failure of a sent DELETE is final if and only if the service is prompt and nothing was in flight |
| GmailMutation.Adapter.Observe | src/mailarchive/gmail_mutation.py:271-293 | read-only; the credentials are renewed first if they are not valid, and otherwise once exactly if the first session was turned away; against every service the answer is determined by what was answered, and its definite answers are true |
| GmailHistory.CatchUpIsExact | src/mailarchive/gmail.py:683-731 | for any interleaving of a paged listing with changes, seen plus touched minus deleted after a replay from an anchor no later than the scan is exactly the mailbox at the replay's end |
| GmailHistory.ReplayIsExact | src/mailarchive/gmail.py:803-823 | a replay over rows right at its start for untouched messages makes them the mailbox at its end |
| GmailHistory.LateAnchorMissesARemoval | src/mailarchive/gmail.py:581-593 | with an anchor taken after the scan began, the outcome can be wrong |
| GmailHistory.StaysUntilRemoved | src/mailarchive/gmail.py:774-786 | a message there at one point is there at a later one unless a removal lies between |
| GmailHistory.GoneForGood | src/mailarchive/gmail.py:785-786 | a removed message never comes back |
| GmailRows.SoundEvolves | src/mailarchive/gmail.py:803-816 | the stored point's promise survives mailbox changes and every write that was true when it was made |
| GmailRows.StaleAreRecorded | src/mailarchive/gmail.py:737-840 | however rows evolve beside reconciliations, none becomes stale but one that a reconciliation wrote |
| GmailRows.ReplayCatchesUp | src/mailarchive/gmail.py:803-823 | a replay beside reconciliations and mailbox changes leaves rows right at its end: exactly the mailbox but for rows a reconciliation has written, and those too where nothing has touched the message since |
| GmailRows.InventoryCatchesUp | src/mailarchive/gmail.py:710-731 | making absent what is not in the inventory leaves rows right at its point and none stale |
| GmailRows.PresenceIsFaithfulIff | src/mailarchive/remote_mutation.py:369-399 | marking a message present keeps the promise of a point if and only if it was there at the point, has been touched since, or its row was stale already |
| GmailSync.Account.Reconcile | src/mailarchive/gmail.py:553-579 | reading one message registers it as present; whatever reconciliations record meanwhile, every write is true or marked stale |
| GmailSync.Account.ScanAll | src/mailarchive/gmail.py:683-707 | the paging loop ends on any token sequence and has seen what a scan may show, all of it registered or since rightly recorded as absent |
| GmailSync.Account.CollectHistory | src/mailarchive/gmail.py:758-801 | the paging loop collects exactly the ids touched and deleted between the start and the point of the last page |
| GmailSync.Account.ApplyHistory | src/mailarchive/gmail.py:802-816 | affected rows follow the history, one commit each; only true writes are made even if it stops half way |
| GmailSync.Account.Partial | src/mailarchive/gmail.py:747-840 | a committed replay makes the rows the mailbox at the new point; one that stops, wherever it stops, keeps the promise of the stored point and leaves no row stale that was not so before, except those that a reconciliation has written since the synchronization began |
| GmailSync.Account.CatchUp | src/mailarchive/gmail.py:708-745 | the second half of a full synchronization makes the rows exactly the mailbox at the new point |
| GmailSync.Account.Full | src/mailarchive/gmail.py:669-745 | ends with the rows the mailbox at the new point and none stale; with an empty mailbox it leaves the rows alone, which is right if and only if none was present, and on a quiet service it does so exactly then |
| GmailSync.Account.Sync | src/mailarchive/gmail.py:605-667 | through success, failure, expiry and crash, with reconciliations recording at any time, rows untouched since a point that may be replayed from say what was in the mailbox there, and no row becomes stale except one a reconciliation wrote meanwhile; with no reconciliation at work and none stale the promise is kept whole, however the synchronization ends; a failure keeps the point, and a full synchronization is due afterwards exactly if it was before or the history had expired; nothing but an expired history is survived, and what stops it is what is reported; a success with a point makes the rows the mailbox at it but for those reconciliations wrote, and repairs the stale ones it reaches; a quiet service gets a success |
| GmailSync.Account.RecordAbsence | src/mailarchive/remote_mutation.py:369-399 | recording a confirmed absence keeps that promise |
| GmailSync.Account.RecordPresence | src/mailarchive/remote_mutation.py:369-399 | recording a sighting keeps it if and only if there is no row or no usable point, or the message was there at the point or has been touched since |
| GmailSync.LateSightingMisleads | src/mailarchive/remote_mutation.py:564-585 | for any two messages: with nothing failing, a sighting recorded after its message was removed and synchronized away leaves a row that says present |
| GmailSync.GoneIsNeverTouched | src/mailarchive/gmail.py:766-786 | no later history names a message that is gone, so no replay reaches its row |
| Pop3Wire.DecodeEncode | src/mailarchive/pop3.py:134-143 | for all lines, dots and bare carriage returns or line feeds included, decoding the dot-stuffed response gives exactly the message and leaves exactly what followed |
| Pop3Wire.EncodeDecode | src/mailarchive/pop3.py:134-143 | every complete stream decodes to whole lines, and encoding them again gives it back if and only if it was properly stuffed |
| Pop3Wire.Wire.ReadWireLine | src/mailarchive/pop3.py:113-122 | returns the stream's first line with its CRLF and leaves the rest, however the stream is cut up |
| Pop3Wire.Wire.Command | src/mailarchive/pop3.py:124-132 | DELE and embedded line breaks are refused before anything is sent |
| Pop3Wire.DeleIsRecognized | src/mailarchive/pop3.py:125-126 | a command counts as DELE exactly if it spells it, in whatever case, up to its end or its first space |
| Pop3Wire.Wire.Multiline | src/mailarchive/pop3.py:134-143 | exactly the pure decoding of the stream, buffer plus unread input being what followed the terminator |
| Pop3Wire.FragmentationDoesNotMatter | src/mailarchive/pop3.py:97-143 | two connections carrying the same stream in different pieces return the same bytes and leave the same remainder |
| Pop3Wire.Retrieve | src/mailarchive/pop3.py:167-170 | what a compliant server sends is returned unchanged, whatever follows and however it is cut up |
| ImapSync.ParseFetch | src/mailarchive/imap.py:62-93 | accepts exactly the responses of one whole literal for the requested UID, and returns it |
| ImapSync.RefreshLastSeen | src/mailarchive/imap.py:159-177 | updating in chunks of 500 touches exactly the rows one update would |
| ImapSync.Archive.Ingest | src/mailarchive/ingest.py:121-179 | success means one object per digest and a file with exactly these bytes; no file is overwritten, and a registered object whose file is missing or damaged is neither accepted nor restored |
| ImapSync.Archive.Register | src/mailarchive/imap.py:180-254 | an identity is linked once; a different object is a conflict and changes no link |
| ImapSync.Archive.Acquire | src/mailarchive/imap.py:333-357 | one message fetched, admitted and linked to the object of exactly its bytes, or stopped anywhere with all links intact |
| ImapSync.Archive.Sync | src/mailarchive/imap.py:287-392 | over failures at any point no link changes, only unlinked UIDs are fetched, in order and once, and none if all of the snapshot is linked; no row outside the snapshot changes and none loses its presence; a success links every UID of the snapshot to the object of its bytes and marks it seen |
| ImapSync.SyncTwice | src/mailarchive/imap.py:327-334 | synchronizing again a folder in which nothing new has arrived fetches no body |
| ImapSync.LinkedFilesHoldTheMessage | src/mailarchive/ingest.py:46-48 | the check of a canonical file passes for a linked message if and only if the file holds exactly the message's bytes |
| MoveExact.SafeKeepsTheBytes | src/mailarchive/classification.py:107-147 | in a safe state the bytes are at source or destination, and no file has other contents than before |
| MoveExact.Mover.CopyInstall | src/mailarchive/classification.py:123-141 | the copy fallback installs only verified bytes under a name that was free, in any number of pieces |
| MoveExact.Mover.Move | src/mailarchive/classification.py:107-147 | every state of the disk is safe; the source is removed only after the bytes at the destination have been made durable; it reports a system error exactly if a call failed; undisturbed it succeeds exactly when it was ready, and then only the bytes' place has changed |
| MoveExact.CrashAndRerun | src/mailarchive/classification.py:107-147 | from every state any failure or crash may leave, rerunning the move ends with the bytes at the destination and the source gone |
| Lifecycle.LatestManualIs | src/mailarchive/classification.py:150-157 | the binding override is the last manual verdict |
| Lifecycle.DecidedIsEffective | src/mailarchive/classification.py:272-276 | the class decided before a verdict is appended is the one read back afterwards, manual first, then latest, and that row is unique |
| Lifecycle.FirstHamIsFirst | src/mailarchive/classification.py:183-185 | the promotion time is that of the first verdict that made ham effective, and is set if and only if one did |
| Lifecycle.LastQuarantineIsLast | src/mailarchive/classification.py:186 | the quarantine time is that of the last verdict that left ham ineffective, and is set if and only if one did |
| Lifecycle.FirstHamNeverChanges | src/mailarchive/classification.py:183-185 | no later verdict changes the promotion time |
| Lifecycle.Message.Apply | src/mailarchive/classification.py:160-269 | after any verdicts the state is archived exactly if the effective verdict is ham, with both times as the history says and the bytes at the place of the state; a run that stops loses nothing; it succeeds exactly when the bytes are where the row or the verdict says |
| Lifecycle.Message.ClassifyPending | src/mailarchive/classification.py:279-288 | only pending messages whose bytes are in staging are classified |
| Lifecycle.PendingRecoveryFails | src/mailarchive/classification.py:291-330 | after a crash between unlink and commit pending recovery never succeeds and changes nothing |
| Lifecycle.CrashAfterMove | src/mailarchive/classification.py:181-204 | such a crash leaves the row pending and the bytes at the verdict's place |
| Manifest.ParseManifest | src/mailarchive/borg.py:432-460 | accepts exactly the non-empty manifests of objects with a known kind, a path, a hexadecimal digest and a natural number that is no boolean, and returns the entries whose writing they are |
| Manifest.ExpectedInventory | src/mailarchive/borg.py:463-479 | comparing counts accepts exactly the manifests of usable fields without repeated paths, and the listing then reads every entry |
| Manifest.CopyAll | src/mailarchive/borg.py:265-309 | of rows whose tables keep their paths unique, a snapshot is made exactly if every file is under the root of its state, or at the path its digest names, with its recorded bytes; it copies exactly those |
| Manifest.Materialize | src/mailarchive/borg.py:262-325 | the snapshot is the verified copies, the database, and a manifest that lists exactly them in order of kind and path |
| Manifest.SortOrders | src/mailarchive/borg.py:318 | sorting by kind and then path yields an ordered rearrangement of the entries |
| Manifest.FirstDifferenceDecides | src/mailarchive/borg.py:318 | spelled strings are ordered by the first character in which they differ, beginnings first |
| Manifest.ManifestOrder | src/mailarchive/borg.py:318 | in a snapshot's manifest the kinds ascend, and the paths within a kind |
| Manifest.EntryFields | src/mailarchive/borg.py:280-308 | every field of a manifest entry, by the table and the place its row is from |
| Manifest.FaithfulStorageVerifies | src/mailarchive/borg.py:499-507 | faithfully stored, a snapshot lists what verification expects if and only if the recorded sizes are true |
| Backup.Store.BackupRun | src/mailarchive/borg.py:361-419 | nothing is recorded unless the repository now behind the name was found to be the bound one; through errors and crashes a run is recorded as what it was; success leaves unverified evidence for exactly the snapshot's messages, and an interrupted run is found and failed |
| Backup.Store.VerifyRun | src/mailarchive/borg.py:482-526 | a run is verified only on four answers, each true when given: the bound identity, the manifest on record, a listing of exactly its entries plus itself, and a data check; the archive may decay between them and before the commit; otherwise, once something has been asked, run and evidence are marked as not verified together |
| Backup.Store.Examine | src/mailarchive/borg.py:493-508 | the four questions are asked in order, each of the archive of its own moment, and an undamaged repository that answers is found proven exactly if it is |
| Backup.CountsRepositoriesNotRuns | src/mailarchive/retention.py:210-218 | retention counts an identity if and only if one of its repositories has a verified run covering the message, however many runs there are |
| Backup.MarkingCounts | src/mailarchive/borg.py:422-429 | verifying a run adds its repository for the messages it covers and nothing else; failing one never adds |
| Backup.StartedInterrupts | src/mailarchive/borg.py:375-385 | starting a run touches no run of another repository and none that has ended, fails those left under way, and leaves the new one the only one under way on its repository |
| Backup.ProvenIffTrueSizes | src/mailarchive/borg.py:482-526 | the archive of an intact snapshot can be proven if and only if the sizes on record are those of the files |
| Backup.AcceptedIsProvenIff | src/mailarchive/borg.py:506-508 | an archive that a verification accepts is proven at its last answer if and only if it then still holds the files that were listed |
| Backup.CompleteIff | src/mailarchive/borg.py:497-507 | an archive lists what the manifest on record describes if and only if it holds that manifest and exactly the files in it |
| Backup.BackupThenVerify | src/mailarchive/borg.py:361-526 | undisturbed, a backup of healthy files verifies exactly when the sizes on record are true, and its evidence says so |
| Watcher.AttemptsAreClose | src/mailarchive/fastpath.py:313-356 | in one session the next attempt begins less than the interval, one loop pass and one arming of IDLE after the last one ended |
| Watcher.NoLongSilence | src/mailarchive/fastpath.py:351-355 | no session goes on longer than that without an attempt |
| Watcher.NextWindowAnswers | src/mailarchive/fastpath.py:313-346 | a relevant event, a busy lock, a failed synchronization or a new session forces an attempt in the next window that is armed, and a quiet success does not |
| Watcher.CallsAreAnswered | src/mailarchive/fastpath.py:308-434 | over a whole run, a window that brought an event, was turned away, failed or broke off is answered by an attempt in the next window whose IDLE is armed, in the same session or first thing after reconnecting |
| Watcher.StreakIs | src/mailarchive/fastpath.py:409-413 | the failure counter is the number of failed sessions since the last one that collected a burst |
| Watcher.EndedIs | src/mailarchive/fastpath.py:323-332 | the streaks that ended are the sessions after the first failure that collected a burst |
| Watcher.DelaysFollowTheTable | src/mailarchive/fastpath.py:33-33 | after the k-th failure since the last collected burst the wait is 1, 2, 5, 10, 30 seconds, and 60 from the sixth on |
| Watcher.Watcher.RunIdle | src/mailarchive/fastpath.py:308-356 | the loop's windows obey the session law, its first burst ends and counts the streak before it, its results are the attempts of its windows in order, and it breaks off exactly if its last window does and is stopped exactly on request |
| Watcher.Watcher.Run | src/mailarchive/fastpath.py:366-435 | over any run the k-th consecutive transport failure waits the k-th delay of the table, the last one from there on, the reconnect count is the number of streaks ended, the windows of all sessions are lawful, acquisition is degraded exactly if the last attempt of these windows, in order, that was not turned away by the lock failed, and only a stop request, a refused account or an IDLE command not supported or turned down ends the run |
| Watcher.Watcher.SyncAndRefresh | src/mailarchive/fastpath.py:238-271 | acquisition is degraded exactly if the last attempt not turned away by the lock failed |

## Left out

- Sockets, TLS, OAuth flows, token files, HTTP retries and credential environment variables: reduced to a request being answered, refused or lost.
- SQL text, migrations and schema rebuilds: tables are maps with atomic commits.
- `cli.py`, `config.py`, `logging.py`, `safety.py`, status reports, health rows and audit text: plumbing and display.
- `notmuch.py`, `recoll.py`, the Rspamd request and the Borg subprocess calls: thin wrappers; their answers are inputs.
- MIME parsing, attachments, header metadata and Gmail labels: library parsing and a second content-addressed store; a label that cannot be resolved is one of the ways reading a message fails.
- `execute_fake` and the poll-mode loops: the first is for tests, the second synchronize and wait.
- `retention.evaluate`: a conjunction of facts; the engine takes its verdict on a row as an input that may change at any time.
- Opt-in, plan age and row-state checks of `execute_production_plan` (lines 707-774): they only refuse more plans, and every result here holds without them.
- Engine: the evaluations and identity checks of a plan before its run is inserted are one step; the checks before each call are two.
- EngineTheorems.SucceededMeansGone: its premise `Honest` is proved of calls and looks through each adapter in `Deployment` and not needed in `DeployedRun`; the engine's mailbox and the server's are brought into line about one row's message at a time, and arrivals of other messages are not mirrored.
- DeployedRun.ExecutePlan: the digest that a row's stored hexadecimal text stands for is a parameter, and each folder of an IMAP account is a server of its own.
- EngineCrash.CrashedTargetStaysBlocked: safety after a crash; the code offers no recovery to prove.
- ImapMutation.Adapter.Delete: the flag is taken to be spelled `\Deleted` as the server reports it; capability text and FETCH responses arrive parsed.
- Pop3Mutation.ParseUidls: takes the response split into lines and fields; the byte codec below it is in `Pop3Wire`.
- POP3 synchronization (`_sync_locked`) beyond presence: its linking repeats the argument proved for IMAP.
- GmailSync.Account.Sync: presence only, not the link to canonical bytes.
- GmailSync.Account.ApplyHistory: affected ids are visited in any order; the source sorts them.
- Pop3Wire.Wire.Multiline: a response cut off by the peer is reported as closed, and what is left of the stream is not described further; STLS and the greeting are not part of this model.
- ImapSync.Archive.Ingest: the temporary file and link of `create_canonical_file` are one atomic step; the same pattern is taken apart in `MoveExact`.
- MoveExact.Mover.Move: creating directories is a call that may fail, and syncing them is an event whose order is proved; a crash that loses an unsynced directory entry is not part of this model.
- Lifecycle.Message.Apply: messages are freshly read, as its callers read them; a stale copy of the row is not part of this model.
- Manifest.CopyAll: takes the rows the two queries deliver; the SQL that selects them, and the UNIQUE constraints that keep their paths distinct, are taken as given.
- Manifest.ParseManifest: takes lines as a JSON decoder delivers them.
- Backup.Store.VerifyRun: `restore_test`, which repeats the comparison on extracted files, is not part of this model.
- Watcher.Watcher.Run: times are integers and a run is followed through finite beginnings; index refreshes and operator-visible modes are not part of this model.
- Failures of lock release and of closing a connection: both always succeed.
