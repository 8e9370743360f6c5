# A verified model of the mail account and its edges

The repository keeps every mail account as an append-only log of events. This project models the
code around that log in Dafny and proves what it promises:

- **The account** (`Model`, `Seqs`, `Projection`, `EventLog`, `Threading`, `Runtime`, `PowerLoss`). A projection
  is the fold of a log; the runtime keeps one in step with a log file that is compacted through
  renames. State is proved equal to the fold of the acknowledged events over every run of ingests,
  mutations, compactions stopped at any step, crashes and reopens; and it is said exactly which
  power failures it survives.
- **The IMAP edge** (`UidView`, `Agreement`, `Session`, `Edge`, `Store`). A second, independent fold of the
  same log assigns UIDs; it agrees with the projection and keeps UIDs permanent. EXPUNGE tells the
  client exactly what the server did, and STORE leaves exactly the flags asked for.
- **The JMAP edge** (`Edge`, `Jmap`). A patch is applied in the arbitrary order of a Go map; the outcome is
  independent of that order exactly when no two paths contradict each other.
- **The outbound scheduler** (`Warmup`, `Reputation`, `FileQueue`, `Scheduler`, `Outbound`,
  `OutboundCrash`). Conservation of messages, gates, budgets and termination over every run, and no
  accepted message lost over every interleaving of submissions, passes, crashes and recoveries.
- **What the edges see** (`Reachable`, `Export`). For every log a runtime leaves, whole or cut by a compaction:
  exactly when SELECT and STATUS count alike, and exactly which mail an export contains.
- **Codecs and limits** (`Text`, `Mbox`, `AuthTrace`, `Ulid`, `Abuse`). The mbox archive is undone
  by an mboxrd reader, header stripping is idempotent and loses nothing else, ids sort by time, and
  the sliding window bounds every window.

Each stateful part is written twice: functions over a value (`Step`, `StepItem`, `Applied`,
`Result`, `Checked`, ...) that say what happens, and a class that updates its fields in place as the
Go code does and is proved to compute exactly that. The theorems are about the functions, over all
runs, so they hold of the classes.

## Where the code and its promises part

These are proved, not argued:

- `Restore` gives back the snapshotted account exactly when the Message-ID index is exact. A fold of
  an arbitrary log need not have that: `SharedMessageIdLosesIndex` names the log. Every log the
  runtime writes does have it.
- `openProjection` folds the bare log when the snapshot cannot be read. That is the account exactly
  when the log was never cut (`UnreadableSnapshot`, `UncutHoldsAll`). `OpenFile` passes over such a
  snapshot too, and resumes the right numbering exactly when the log alone still says how far it got
  (`OpenResumesNumbering`); otherwise the next append is acknowledged and skipped by the fold
  (`NumberingLost`, `NumberingLostRun`). The crash theorems are about runs in which no process opened a log without a
  snapshot it could not do without (`Recovers`).
- An ingest whose generated id is already live returns that id, and the new mail is logged but not
  in the account (`IngestIsIdempotent`).
- The UID view and the mail export read only the records still in the log. After a compaction SELECT
  lists fewer messages of a label than STATUS counts, exactly unless the records since settle every
  message that carried it (`SelectOfProcess`); an export lacks exactly the mail that was live at the
  cut (`ArchiveOfCutLog`).
- `ThreadMerged` is folded by the projection but appended by no runtime method. If one were applied
  while the process runs, the threader would keep filing replies under the old thread exactly when
  the merge moves a live message with a Message-ID (`MergeAndThreader`).
- The projection and the UID view part on two kinds of ingest event, which `StepKeepsAgreement`
  names exactly; a log whose ingests use new ids has neither.
- `safeQueueName` is not injective: ids that differ only in a dot against an underscore share one
  file, and the earlier message is lost in a crash (`DotsCollide`, `BothSurviveIffNamesDiffer`).
  The crash theorem therefore asks that a submitted message share no file name with a different one
  that is queued or stored at that moment; submitting the same one again is covered. Ids minted by the scheduler are
  plain and short, so they name their own files (`PlainIdsKeepTheirName`).
- A closed interval one window long can hold twice the limit, and never more
  (`ClosedIntervalHoldsTwice`, `ClosedIntervalBound`); every half-open one holds at most the limit.
- An envelope address that contains a line feed breaks the mbox archive, and nothing else does
  (`MboxRoundTrip`).
- The comment on `SaveSnapshot` says that the snapshot is fsynced before the log is cut
  (internal/eventlog/eventlog.go:223-226); the code only writes and renames it. So a power failure may
  leave a torn snapshot beside a cut log: `LostToPowerRun` is a run that loses an acknowledged event.
  Every outcome of a power failure holds the whole history exactly when the snapshot in place had
  been written out or the log not been cut (`SparedIff`), and over every run in which power fails only
  then nothing is lost (`PowerSafety`).
- A reply resolves alike before and after a restart exactly when the running threader knows none of its
  references, or files the first it knows under the same thread as the first that is live
  (`ReplySurvivesRestart`); it knows the headers of expunged messages, a fresh one does not.
- UIDs are 32-bit: order ends exactly when a label has given out 2^32 - 1 of them since it was last
  deleted (`NextUid`, `WrapEndsOrder`).

## Model

| member | source | states |
|---|---|---|
| Projection.Account.constructor | internal/projection/projection.go:35-47 | a new account is the empty fold with the system labels |
| Projection.Account.Apply | internal/projection/projection.go:108-195 | updating the maps and the order in place computes exactly one step of the fold, including the Seq guard and every defensive branch |
| Projection.Account.RemoveLabelEverywhere | internal/projection/projection.go:171-175 | deleting a label takes it from every message, in whatever order the map is visited, and changes nothing else |
| Projection.Account.AttachToThread | internal/projection/projection.go:197-207 | the message joins the end of its thread, which is created when missing; no thread id, no change |
| Projection.Account.DetachFromThreads | internal/projection/projection.go:209-216 | every thread loses the message and empty threads go, whatever the visiting order, although the map shrinks while it is visited |
| Projection.Account.MergeThreads | internal/projection/projection.go:218-238 | the source thread's messages move to the end of the target, are relabelled, and the source goes; the four guards leave all as it was |
| Projection.Account.RemoveFromOrder | internal/projection/projection.go:240-247 | the first occurrence goes, the rest keeps its order |
| Projection.RemoveId | internal/projection/projection.go:249-257 | every occurrence goes, the rest keeps its order |
| Projection.Account.MessageIdExists | internal/projection/projection.go:52-58 | answers from the index; an empty header never matches |
| Projection.Account.Snapshot | internal/projection/projection.go:72-76 | the serialised part of the state, without the index |
| Projection.Account.Restore | internal/projection/projection.go:80-104 | the snapshot's state with an index that names, for every live header, some message carrying it |
| Projection.Rebuild | internal/projection/projection.go:260-270 | the in-place replay of a whole log is the fold of that log |
| Projection.Account.MessagesWithLabel | internal/projection/projection.go:275-283 | the live messages with the label, in ingest order |
| Projection.CarryingSpec | internal/projection/projection.go:275-283 | that list holds a message if and only if it is ordered, live and labelled, and holds it once |
| Projection.Account.AllMail | internal/projection/projection.go:287-297 | the live messages neither in trash nor in spam, in ingest order |
| Projection.VisibleSpec | internal/projection/projection.go:287-297 | that list holds a message if and only if it is ordered, live and neither in trash nor in spam, and holds it once |
| Projection.FoldConsistent | internal/projection/projection.go:114-257 | after folding any log: order is duplicate-free and lists exactly the live messages, no thread is empty, threads partition the live messages that name one, each listed once, and no index entry is stale |
| Projection.StepConsistent | internal/projection/projection.go:108-195 | every event keeps all of that |
| Projection.MergedPartition | internal/projection/projection.go:218-238 | a merge keeps threads a partition of the live messages |
| Projection.DetachedPartition | internal/projection/projection.go:209-216 | an expunge keeps threads a partition and leaves none empty |
| Projection.EventKeepsIndexExact | internal/projection/projection.go:135-142 | from an exact index an event leads to an exact index if and only if it is not an ingest of a new message under an indexed header |
| Projection.SnapshotRoundTrip | internal/projection/projection.go:96-102 | Restore returns the snapshotted account for every map iteration order if and only if the index is exactly the inverse of the live Message-IDs |
| Projection.SharedMessageIdLosesIndex | internal/projection/projection.go:180-188 | the log that shows an arbitrary fold need not have such an index |
| EventLog.Mem.Append | internal/eventlog/eventlog.go:85-91 | the reference log numbers its records 1, 2, ... without gaps |
| EventLog.Mem.ReadFrom | internal/eventlog/eventlog.go:93-103 | the records numbered at least n, in order |
| EventLog.SinceNumbered | internal/eventlog/eventlog.go:93-103 | reading a cut or uncut log from n gives exactly the history from n on |
| EventLog.File.constructor | internal/eventlog/eventlog.go:123-147 | numbering resumes from the higher of the log's tail and the snapshot, which is passed over when it cannot be read, and the handle is bound to the log, created if missing |
| EventLog.File.Append | internal/eventlog/eventlog.go:161-182 | a success adds the next record to the file the handle is bound to; a failure changes nothing |
| EventLog.File.ReadFrom | internal/eventlog/eventlog.go:184-196 | the records of the log path numbered at least n, in order, or an error when the log cannot be read |
| EventLog.File.LoadSnapshot | internal/eventlog/eventlog.go:206-221 | no snapshot, an error, or the one on disk |
| EventLog.File.SaveSnapshot | internal/eventlog/eventlog.go:227-283 | for a failure at each step: which of snapshot, log and handle are new, the log being cut only once the snapshot is in place, and the handle following the new log |
| EventLog.File.Close | internal/eventlog/eventlog.go:150-159 | the handle is gone, the numbering unchanged |
| Runtime.CrashSafety | internal/account/runtime.go:48-109 | after any run of ingests, mutations, compactions stopped at any step, crashes and reopens: the live projection equals the fold of every acknowledged event, any account openProjection can return equals it too unless it needed a snapshot it could not restore, the next Seq is above all of them exactly when the numbering is known, and nothing acknowledged is dropped |
| Runtime.EveryRunFromNothing | internal/account/runtime.go:48-191 | every run that starts with no process, no file and no event ends in such a state, with the index exact, the fold consistent and the threader in agreement |
| Runtime.NewAccountIsSound | internal/account/runtime.go:48-62 | a new account satisfies the invariant of the runs |
| Runtime.Create | internal/account/runtime.go:48-62 | a runtime can be opened on an empty file system |
| Runtime.NextKeeps | internal/account/runtime.go:97-191 | every single operation keeps the invariant that ties disk, memory and history together |
| Runtime.OpenReturnsFold | internal/account/runtime.go:66-82 | on a disk that holds the history, in whatever half-compacted shape, every possible result of openProjection is the fold of the history, unless a needed snapshot could not be restored |
| Runtime.OpenResumesNumbering | internal/eventlog/eventlog.go:123-147 | on such a disk the recovered Seq is the number of acknowledged events if and only if the snapshot was read or the log alone still says how far it got |
| Runtime.UncutHoldsAll | internal/account/runtime.go:66-82 | whether the log still holds the whole history shows in its first record |
| Runtime.SavedPersists | internal/eventlog/eventlog.go:227-283 | wherever SaveSnapshot stops, the disk still holds the whole history |
| Runtime.AppendPersists | internal/eventlog/eventlog.go:161-182 | an append extends the history the disk holds by its event |
| Runtime.AppendIsFolded | internal/projection/projection.go:108-112 | in a reachable process an acknowledged append is never skipped by the Seq guard |
| Runtime.AppendSkippedIff | internal/projection/projection.go:108-112 | an acknowledged append is skipped if and only if the numbering of the log is behind the account |
| Runtime.NumberingLost | internal/eventlog/eventlog.go:123-147 | a fully cut log opened without reading its snapshot acknowledges an event that the account never shows |
| Runtime.IndexAndThreaderTrack | internal/account/runtime.go:151-172 | in every reachable state live Message-IDs are distinct, the index is exactly their inverse, and the threader files each where the projection does |
| Runtime.IngestIsIdempotent | internal/account/runtime.go:151-172 | ingesting a held Message-ID returns the id of the live message that carries it and changes nothing; otherwise, when the log accepts it, the new message and no other is added under the generated id, or dropped if that id was live |
| Runtime.ReplySurvivesRestart | internal/account/runtime.go:48-62 | a reply joins the same thread, or none, before a crash and after the reopen if and only if the process knew none of its references or files the first it knew as the first that is live; merges in the history included |
| Runtime.UnreadableSnapshot | internal/account/runtime.go:66-82 | folding the bare log gives the account, for every history, if and only if nothing was cut from the log |
| Runtime.OpenProjection | internal/account/runtime.go:66-82 | restore and replay of the tail; replay of what the log holds when there is no snapshot or it cannot be read or decoded; an error if and only if the log cannot be read |
| Runtime.SeedMap | internal/account/runtime.go:53-59 | the seed maps exactly the live headers to the thread of a message that carries them, whatever the visiting order |
| Runtime.Runtime.Open | internal/account/runtime.go:48-62 | opening is a Boot step and establishes the invariant, on a disk whose snapshot can be read or is not needed |
| Runtime.Runtime.Ingest | internal/account/runtime.go:141-177 | the in-place ingest is an Ingest step, keeps the invariant, and returns the held id, the fresh id or an error |
| Runtime.Runtime.AppendApply | internal/account/runtime.go:180-219 | each mutation wrapper is a Mutate step, keeps the invariant, and fails only when the log does |
| Runtime.Runtime.Compact | internal/account/runtime.go:97-109 | a compaction stopped at any step is a Compact step and keeps the invariant |
| PowerLoss.SparedIff | internal/eventlog/eventlog.go:223-283 | every outcome of a power failure holds the whole acknowledged history if and only if the snapshot in place had been written out or the log not been cut |
| PowerLoss.PowerSafety | internal/eventlog/eventlog.go:123-283 | over every run from nothing with power failures wherever they spare the history, an opened log gives the fold of every acknowledged event and numbers on from them all |
| PowerLoss.LostToPowerRun | internal/eventlog/eventlog.go:223-283 | open, label, compact, power failure: the acknowledged label is gone |
| PowerLoss.NumberingLostRun | internal/eventlog/eventlog.go:123-147 | open, label, compact, crash, open without reading the snapshot: every later event is acknowledged and never shown |
| Threading.Threader.Seed | internal/threading/threading.go:27-33 | adds every entry with a header, whatever the visiting order |
| Threading.Threader.Resolve | internal/threading/threading.go:38-61 | the thread of the first known reference or the minted id, recorded under the message's own header |
| Threading.SeededAgrees | internal/account/runtime.go:53-60 | every map Open can seed files each live Message-ID where the projection does |
| Threading.SameThreadIff | internal/threading/threading.go:38-61 | the same for a running and a freshly seeded threader |
| Threading.SameThreadAfterRestart | internal/threading/threading.go:38-61 | both resolve alike when the first known reference is live |
| Threading.MergeAndThreader | internal/projection/projection.go:218-238 | a merge applied under a running threader keeps the two in agreement if and only if it moves no live message with a Message-ID |
| UidView.Mailbox.Assign | adapters/imap/uidview.go:42-50 | a new message gets the next UID, which wraps at 32 bits; a known one changes nothing |
| UidView.Mailbox.Retire | adapters/imap/uidview.go:52-64 | the in-place removal is that of the message's slot; uidNext stays |
| UidView.ViewObject.Mbox | adapters/imap/uidview.go:77-84 | the label's mailbox, created empty when missing, every other mailbox unchanged |
| UidView.ViewObject.Apply | adapters/imap/uidview.go:87-107 | updating the shared mailbox objects in place computes exactly one step of the UID fold |
| UidView.ViewObject.RetireEverywhere | adapters/imap/uidview.go:99-102 | an expunge retires the message in every mailbox, whatever the visiting order |
| UidView.ViewFrom | adapters/imap/uidview.go:123-129 | replaying a log in place is the fold of its events |
| UidView.ViewObject.Entries | adapters/imap/uidview.go:159-166 | the label's slots in UID order |
| UidView.SlotsAlwaysOk | adapters/imap/uidview.go:31-107 | in every mailbox of every view of every log, order and byMsg are inverse to each other, each message once |
| UidView.NextUid | adapters/imap/uidview.go:42-50 | uidNext of every mailbox of every log is one above the UIDs given out since the label was last deleted, modulo 2^32 |
| UidView.UidsAscend | adapters/imap/uidview.go:42-107 | UIDs strictly ascend below uidNext in every mailbox that has given out fewer than 2^32 - 1 since then |
| UidView.WrapEndsOrder | adapters/imap/uidview.go:42-50 | when the 2^32 - 1st is given out, uidNext is 0 and the order is lost |
| UidView.UidsArePermanent | adapters/imap/uidview.go:42-107 | until the label is deleted, and short of that many UIDs of this label, uidNext never falls and a UID once assigned never names another message (section 2.3.1.1 of RFC 3501) |
| UidView.DeletedLabelStartsOver | adapters/imap/uidview.go:103-105 | deleting a label and using it again starts its UIDs over |
| Agreement.AppliedBoxes | adapters/imap/uidview.go:87-107 | what every event does to membership of every mailbox |
| Agreement.AppliedLabels | internal/projection/projection.go:114-188 | what every event does to which messages are live and which labels they carry |
| Agreement.StepKeepsAgreement | adapters/imap/uidview.go:87-107 | from agreeing folds an event leads to agreeing folds if and only if it is neither of two named kinds of ingest |
| Agreement.FoldsAgree | adapters/imap/uidview.go:87-129 | after every uncompacted log whose ingests use new ids, a live message has a UID in a mailbox if and only if it has the label |
| Session.SelectAgreesWithStatus | adapters/imap/server.go:266-272 | for such a log, SELECT and STATUS count the same messages of every label, and these are the live ones with the label |
| Session.SelectionSpec | adapters/imap/server.go:173-181 | the selection holds the live messages of the entries, once each |
| Session.Select | adapters/imap/server.go:148-171 | selecting a label replays the log into a view and loads the live entries of that label |
| Reachable.RunWritesFresh | internal/account/runtime.go:159-172 | every run whose generated ids are new writes a log whose ingests use new ids |
| Reachable.CutLogAgrees | internal/account/runtime.go:305-307 | the UID view of the records left after a cut agrees with the account if and only if every label a message carried at the cut has been settled since |
| Reachable.SelectOfCutLog | adapters/imap/server.go:266-272 | over a cut log SELECT lists only messages that STATUS counts, and counts as many if and only if those that carried the label at the cut are settled |
| Reachable.SelectOfProcess | adapters/imap/server.go:138-181 | so it is in every process that a run from nothing with new ids leads to, and the counts are always equal when no compaction was tried |
| Export.CutFold | internal/backup/backup.go:36-41 | the fold of the records left after a cut holds exactly the messages that are live now and were not at the cut, each as it is now but for the thread it names |
| Export.CutOrder | internal/backup/backup.go:36-42 | and it lists them in the order the whole account does |
| Export.ArchiveOfCutLog | internal/backup/backup.go:36-50 | an export of a cut log writes, in the same order, exactly the mail that an export of the whole account would, less what was live at the cut |
| Session.Session.LoadSelection | adapters/imap/server.go:173-181 | the selection is built from the entries whose message is live, in UID order, with nothing marked deleted |
| Session.Session.Expunge | adapters/imap/server.go:485-524 | the numbers announced, the rows kept, and exactly the chosen messages losing the label, save those the log refuses; when a response fails, the rows stay and the label is gone down to that row |
| Session.Session.Mark | adapters/imap/server.go:488-499 | the rows marked deleted and named by the UID filter, if there is one |
| Session.Session.Announce | adapters/imap/server.go:500-509 | the descending walk announces the chosen rows, highest first |
| Session.ClientFollows | adapters/imap/server.go:485-524 | a client that applies the numbers one by one (section 7.4.1 of RFC 3501) never sees one out of range and ends with exactly the server's list |
| Edge.SetFlag | internal/account/runtime.go:201-203 | the flag of the one message, and nothing else of the account |
| Edge.SetLabel | internal/account/runtime.go:193-199 | the label of the one message, and nothing else of the account |
| Store.StoreMeansWhatItSays | adapters/imap/server.go:367-401 | after STORE the flags FETCH reports are exactly those asked for (section 6.4.6 of RFC 3501), stale copies and repeated or unknown flags included, and flags IMAP does not know stay |
| Store.StoredFromSpec | adapters/imap/server.go:384-400 | what becomes of each flag when the log accepts only some of the changes |
| Store.MappingRoundTrip | adapters/imap/server.go:750-776 | the two flag mappings are inverse to each other on the four system flags, and no other IMAP flag maps to one |
| Store.ReportedIff | adapters/imap/server.go:742-748 | a flag is reported if and only if it is the session's deleted mark or maps to a flag the message has |
| Store.ToImapFlags | adapters/imap/server.go:722-740 | lists exactly the reported flags, once each |
| Store.Selected.ApplyStore | adapters/imap/server.go:367-401 | updating the session's copy and the account flag by flag leaves the copy with what was asked for, and the account with the changes that the log accepted, one by one, and nothing else changed |
| Store.Selected.Set | adapters/imap/server.go:368-381 | one flag in both places; the deleted mark in the session only |
| Jmap.ApplyPatch | adapters/jmap/server.go:644-686 | fails only if some whole property does not decode or the log refuses a change, and succeeds if neither; other messages untouched; however far it gets, whatever changed some path asked for; on success the visit of all paths in some order, which is what the patch declares if no two paths contradict each other |
| Jmap.ApplyOnePath | adapters/jmap/server.go:645-683 | what one path does to the message; a decode error changes nothing, a refused change leaves it on the way to what the path says |
| Jmap.SetAllKeywords | adapters/jmap/server.go:688-703 | each of the four known flags ends as the map says, other flags stay; a refused change leaves the rest undone |
| Jmap.SetAllMailboxes | adapters/jmap/server.go:705-725 | the labels end as exactly the names mapped to true, though two maps are visited in arbitrary order; a refused change leaves the rest undone |
| Jmap.PatchMeansWhatItSays | adapters/jmap/server.go:644-686 | a patch without contradictions leaves the message with exactly the declared flags and labels and all else as it was, for every iteration order |
| Jmap.OrderMattersOnlyInContradiction | adapters/jmap/server.go:644-686 | the outcome is the same for every iteration order and message if and only if no two paths contradict each other |
| Jmap.UnmixedIsCompatible | adapters/jmap/server.go:644-686 | a patch that does not mix a whole property with one of its sub-paths (section 5.3 of RFC 8620) has no contradictions |
| Jmap.LastWordDecides | adapters/jmap/server.go:644-686 | in any order the last path that mentions a flag or label decides it |
| Jmap.ParseInjective | adapters/jmap/server.go:740-766 | two different paths never mean the same flag, label or property |
| Warmup.WkeyInjective | services/mtaout/mtaout.go:149-149 | the counter key determines both domain and day, even for a domain with the separator in it and a negative day |
| Warmup.RecordKeepsCaps | services/mtaout/mtaout.go:110-147 | a send that Allow lets through leaves every (domain, day) count within its cap, whatever the clock does |
| Warmup.WarmupObject.Allow | services/mtaout/mtaout.go:132-138 | whether today's count is below today's cap |
| Warmup.WarmupObject.Record | services/mtaout/mtaout.go:141-147 | counts the send under today's key and keeps the caps when Allow held |
| Reputation.ComplaintKeepsThrottled | services/mtaout/mtaout.go:215-255 | a complaint, to whichever tenant, never lifts a gate |
| Reputation.ReputationObject.RecordComplaint | services/mtaout/mtaout.go:215-215 | counts one complaint and keeps every gated tenant gated |
| FileQueue.SafeQueueName | services/mtaout/filequeue.go:142-163 | the file name built rune by rune |
| FileQueue.PlainIdsKeepTheirName | services/mtaout/filequeue.go:142-163 | a short id of plain characters is its own name |
| FileQueue.FinalNames | services/mtaout/filequeue.go:32-34 | a temporary name is never a queue file, and two ids share a file if and only if their safe names are equal |
| FileQueue.FileQueueObject.WriteItem | services/mtaout/filequeue.go:51-82 | the directory after a write stopped at any step; success is reported only with the item in place |
| FileQueue.FileQueueObject.Remove | services/mtaout/filequeue.go:85-92 | the item's file is gone unless unlinking failed; an error also when only the directory could not be synced |
| FileQueue.FileQueueObject.Load | services/mtaout/filequeue.go:97-123 | the items of the well-formed queue files, in whatever order the directory lists them; an error if and only if the directory or a queue file cannot be read |
| FileQueue.CollectSpec | services/mtaout/filequeue.go:97-123 | an item is loaded if and only if some queue file stores it |
| Scheduler.Scheduler.constructor | services/mtaout/mtaout.go:347-362 | the defaults leave both limits positive |
| Scheduler.Scheduler.Recover | services/mtaout/mtaout.go:368-382 | the stored items join the queue with their attempt counts; an error leaves the queue alone |
| Scheduler.Scheduler.Enqueue | services/mtaout/mtaout.go:389-402 | the message is stored before it is accepted, and queued exactly when it is accepted |
| Scheduler.Scheduler.FindHold | services/mtaout/mtaout.go:447-464 | the first of the four gates that holds the message |
| Scheduler.Scheduler.Dispatch | services/mtaout/mtaout.go:466-511 | the sender's answer settled in gates, retry state and store |
| Scheduler.Scheduler.Tick | services/mtaout/mtaout.go:435-524 | the in-place pass over the queue computes exactly the pass function: queue, gates, store, statistics and bounces |
| Outbound.TickSplits | services/mtaout/mtaout.go:447-524 | a pass splits the queue exactly into delivered, bounced and remaining, keeps the remaining in order, holds a message back if and only if a gate was against it when its turn came, sends at most maxPerDomain to any destination, and reports statistics that count the outcomes |
| Outbound.StepJudged | services/mtaout/mtaout.go:448-512 | each outcome is given if and only if its gate or answer calls for it and no gate before it does; a message that passes all four is dispatched |
| Outbound.TickJudges | services/mtaout/mtaout.go:447-512 | so for every message of the pass, against the gates as the messages before it left them |
| Outbound.TickCounts | services/mtaout/mtaout.go:466-511 | after a pass each tenant's deliveries and bounces and each domain's sends of the day are those before it plus what the pass did, and no other count moved |
| Outbound.TickRespectsGates | services/mtaout/mtaout.go:447-469 | no pass takes a count above its cap, and a gated tenant is neither sent for nor released by a pass |
| Outbound.TickSpendsBudget | services/mtaout/mtaout.go:475-511 | a pass keeps attempts below the maximum, and every hand-over costs its message one of its remaining attempts |
| Outbound.Conservation | services/mtaout/mtaout.go:389-524 | over every run: enqueued = delivered + bounced + pending as multisets, counts within caps, attempts below the maximum, and no message handed over more than maxAttempts times per time it was enqueued |
| Outbound.SendsAreFinite | services/mtaout/mtaout.go:475-511 | the attempts left in the queue are never negative and fall by at least one with each send |
| Outbound.ThrottledForGood | services/mtaout/mtaout.go:211-255 | over every run, complaints included, a gated tenant stays gated and is never sent for again |
| OutboundCrash.NothingAcceptedIsLost | services/mtaout/mtaout.go:368-419 | over every interleaving of submissions, the same message again included, passes, crashes at any store step and recoveries, with Update and Remove failing at will: a message accepted was delivered or given up on since, or is in every queue that can be recovered, and no recovered attempt count exceeds the real hand-overs |
| OutboundCrash.WhyOver | services/mtaout/mtaout.go:475-511 | over every such run a message counts as delivered or given up on only because a pass had an answer that settled it, and one given up on for temporary failures was really handed to the sender at least maxAttempts times |
| OutboundCrash.TickSettles | services/mtaout/mtaout.go:475-511 | the same for one pass |
| OutboundCrash.RecoveredMail | services/mtaout/filequeue.go:97-123 | what a directory in order gives back to Recover |
| OutboundCrash.WrittenKeeps | services/mtaout/filequeue.go:51-82 | a write stopped at any step loses no stored message |
| OutboundCrash.RemovedKeeps | services/mtaout/filequeue.go:85-92 | a removal takes no other message's file |
| OutboundCrash.BothSurviveIffNamesDiffer | services/mtaout/filequeue.go:142-163 | two accepted messages both survive a crash if and only if their safe names differ |
| OutboundCrash.DotsCollide | services/mtaout/filequeue.go:148-152 | two ids that share a file |
| Abuse.WindowLimit | internal/abuse/abuse.go:66-111 | with a clock that never goes back, over every run of Check and Reinstate, at most maxPerWindow messages are allowed in any half-open window |
| Abuse.ClosedIntervalBound | internal/abuse/abuse.go:66-111 | any closed interval one window long holds at most twice the limit |
| Abuse.ClosedIntervalHoldsTwice | internal/abuse/abuse.go:80-94 | the run that puts twice the limit into one, for every limit |
| Abuse.Prune | internal/abuse/abuse.go:82-88 | moving the young times to the front of the same array keeps exactly them, in order |
| Abuse.Filter.Check | internal/abuse/abuse.go:66-96 | the in-place check decides and records for one account and leaves every other account's times alone, although slices are reused |
| Abuse.Filter.PruneAccount | internal/abuse/abuse.go:80-89 | the same for the pruning step |
| Abuse.Filter.ReinstateAccount | internal/abuse/abuse.go:107-111 | lifts the suspension and touches no send times |
| Ulid.EncodesTheNumber | internal/ids/ids.go:50-79 | the 26 characters are the base-32 digits of the 128-bit number, high digit first |
| Ulid.EncodeOrder | internal/ids/ids.go:50-79 | encode is injective, and string order is numeric order |
| Ulid.IdsSortByTime | internal/ids/ids.go:34-48 | an id of one millisecond sorts before one of another for all random bytes if and only if its time is smaller modulo 2^48 |
| Ulid.Encode | internal/ids/ids.go:50-79 | filling the array slot by slot spells those digits |
| Ulid.New | internal/ids/ids.go:34-48 | six bytes of time and ten random ones, encoded |
| AuthTrace.StripKeepsTheRest | adapters/smtp/smtpin.go:32-63 | everything from the separator on is kept verbatim, the output has its separator there, and its unfolded fields are exactly the trusted unfolded fields of the input, in order; without a separator nothing changes |
| AuthTrace.StripIsIdempotent | adapters/smtp/smtpin.go:32-63 | a second pass changes nothing, on every byte string |
| AuthTrace.BoundaryStays | adapters/smtp/smtpin.go:33-41 | no rewritten header without an empty line can move the separator |
| AuthTrace.LinesOfJoined | adapters/smtp/smtpin.go:44-62 | splitting undoes joining on trimmed lines |
| AuthTrace.Regroup | adapters/smtp/smtpin.go:49-53 | unfolding the joined lines of some fields gives those fields back |
| AuthTrace.Unfold | adapters/smtp/smtpin.go:43-54 | the loop over the lines computes the unfolded fields |
| AuthTrace.IsUntrustedAuthTrace | adapters/smtp/smtpin.go:67-83 | true if and only if the lower-cased field starts with one of the five names, the two letters outside ASCII that lower into it included |
| AuthTrace.StripAuthResults | adapters/smtp/smtpin.go:32-63 | the loops compute the specified output |
| Mbox.MboxRoundTrip | internal/backup/backup.go:36-107 | an mboxrd reader recovers exactly the exported bodies, line by line, if and only if no sender contains a line feed |
| Mbox.QuoteIsUndone | internal/backup/backup.go:74-107 | dropping one ">" undoes the quoting of every line, and no quoted line is a separator |
| Mbox.ScanTerminated | internal/backup/backup.go:74-98 | scanning written lines gives them back, up to line ends |
| Mbox.IsFromLineLoop | internal/backup/backup.go:102-107 | the loop over leading ">" decides whether a line needs quoting |
| Mbox.WriteMboxBody | internal/backup/backup.go:74-98 | the body's lines, quoted and ended with CRLF, and one blank line, behind what was already written |
| Mbox.ExportMbox | internal/backup/backup.go:42-55 | separator and body of each message in turn |
| Mbox.ExportLog | internal/backup/backup.go:36-56 | the archive of the account that the records still in the log fold to, or an error if the log cannot be read or a body is missing |
| Mbox.Gather | internal/backup/backup.go:42-46 | the mails of an account's visible messages in ingest order, or an error if a body is missing |

## Left out

- PowerLoss.SparedIff: a synced file keeps its name, and a torn snapshot is unreadable like a missing one; other orders in which a file system may lose renames are left out. The queue directory, whose files are synced before they are renamed, is modelled for a process that dies only.
- Torn log lines, and an append whose write succeeds and whose sync fails: an append is atomic.
- Codecs (JSON, event encoding, MIME parsing) are taken as bijections, so a file is the sequence of its records; the 16 MB line limit of the scanners is not modelled.
- Seq is an unbounded number; the wrap of a 64-bit counter is not modelled. The 32-bit wrap of uidNext is.
- Aliasing of `*Message` and `*Thread`: messages and threads are values in maps, a thread's id is the key it is stored under; `copyMessage` is then the identity. Times and actors of records, and fields that no modelled code reads, are dropped.
- The postgres and SQLite logs, which number or compact differently.
- UidView.UidsArePermanent: ends at LabelDeleted, after which the code starts the UIDs over; `UidView.DeletedLabelStartsOver` says so.
- Agreement.FoldsAgree: is about uncompacted logs, because the view is rebuilt from the records still in the log; `Reachable.CutLogAgrees` says what holds of cut ones. The UIDs themselves start over with a cut.
- UidView.ViewObject.Apply: leaves out the Seq the view notes beside the mailboxes, and the constant UIDVALIDITY, which nothing modelled reads.
- Session.Session.LoadSelection: a row leaves out the copy of the message; trackers and subscriptions are left out, and sequence numbers are encoded as themselves.
- Session.Session.Expunge, Store.Selected.ApplyStore, Jmap.ApplyPatch: which changes the log refuses is a parameter; the account is the projection behind the runtime.
- EventLog.File.constructor: models an opening that succeeds; a log file that cannot be read makes it fail, and no process is up then.
- IMAP FETCH, SEARCH, COPY, APPEND and IDLE, the number sets of STORE, JMAP queries and creation: easier members over the same runtime.
- Reputation.ReputationObject.RecordComplaint: rates are exact rationals, not floating point numbers.
- Scheduler.Scheduler.Tick: the sender's answers are a parameter, one per queued message, and only the three named statuses occur; the bounce callback, which runs after the pass, and the IP pool are left out. The backoff is an arbitrary function; saturation of durations is not modelled.
- OutboundCrash.NothingAcceptedIsLost: asks that a submitted message have an id, which the scheduler otherwise mints, and share no file name with a different message that is queued or stored, for the reason that `OutboundCrash.BothSurviveIffNamesDiffer` proves. A recovery that fails ends the process, as the caller of Recover does.
- Snapshot and Restore of the warm-up and reputation counters: plain copies.
- Abuse.Filter.Check: the clock is a parameter, and only whether an account is suspended is kept, not the reason.
- AuthTrace.StripAuthResults: fields are filtered into a new sequence, not into the same array.
- Ulid.New: random bytes are a parameter. The runtime does not need its ids to be new; the theorems about the edges (`Reachable`) say so where they do.
- Mbox.ExportLog: the asctime stamp of a date is a parameter without line ends, and write errors are left out. Maildir export is left out.
- Blob garbage collection with concurrent ingest, goroutines, channels and locks: each operation is one step, as under its mutex.
- HTTP, SMTP and IMAP wire code, calendars, contacts, settings, quotas, sessions and API keys.
