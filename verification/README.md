# Verified model of the host, the state store and the sidecar client

This Dafny project models the stateful core of the repository and proves what that core is relied on for:

- the fenced singleton lease (`src/host/lease.ts`, `src/host/pgLease.ts`): stores, manager, and the whole
  system of competing pods with late, lost and repeated answers;
- crash-safe transcript ingest (`src/host/hostIngest.ts`) and the store it writes to (`src/main/db.ts`):
  rollups, deduplication, and the mapping from tabs to conversations;
- the embedder client (`src/main/embedderClient.ts`) and the keyed async cache (`src/main/asyncCache.ts`);
- the attach hub (`src/host/attachHub.ts`): replay ring, fan-out, token bucket, owner pruning;
- the frame codecs, the line splitter, the byte-order comparison with the sort built on it, and keyset paging.

Every component has the same three layers. A *value machine* gives each operation as a function on an
immutable state, and `Run` folds it over any sequence of events; an event that cannot happen changes nothing,
so a statement about `Run` is a statement about every interleaving. *Invariants* are kept by every step, and
the theorems about whole runs follow. Where the source updates fields in place, a *class* has those fields and
its methods do the same steps in the same order; each method is proved to move the object's value
(`View()`, `Tables()`, `Tabs()`) exactly as the corresponding function does, so the theorems apply to it.

Check everything with `dafny verify dfyconfig.toml`.

## Where code and expectation part

- *Mutual exclusion.* The manager's constructor demands only `renewMs < ttlMs`. With a negative renew interval
  two processes read `holder` at once (`LeaseProtocol.NegativeRenewClashes`); exclusion over every run holds
  if and only if `0 <= renewMs` (`LeaseProtocol.ExclusionNeedsMargin`).
- *Guard set.* A parked tab is found by the next ingest only while its key is in `pendingClaudeIds`. Two tabs
  of a workspace may be parked on one session; moving the first on drops the key (`TabMapping.MoveStrands`,
  reached as `TabMapping.SharedParkingReached` shows), and the second then stays parked however often the session
  is ingested (`TabMapping.StaysStranded`), until the key is put back, for instance by a restart
  (`TabMapping.RestartRescues`). `TabMapping.GuardExactly` says exactly which runs keep every key.
- *Reused channels.* CLOSE takes the channel from the viewer but leaves the viewer in the tap's list under it; the
  tap may go on (the broker's answer can fail) and even an ended tap passes output on while its broker connection
  lasts. An ATTACH of another session
  on that channel then carries the first one's output, and its ENDED (`AttachRuns.ReusedChannelCrosses`,
  `AttachRuns.ReusedChannelEnds`). `AttachSource.DeliversWhatWasSent` and `AttachSource.TellsWhatHappened` give the
  exact condition at ATTACH, and `AttachSource.RightFromTheBroker` shows that runs without such reuse are right.
- *Paging.* A page can end in a session whose activity time is negative or beyond 2^53 - 1; the next request is
  then refused (`Paging.NegativeActivityStalls`). `Paging.FollowNext` completes exactly when no page but the
  last ends so, and `Paging.EveryPageSizeCompletes` gives the condition for all page sizes.
- *Request timeout.* Every `ready` message clears the timer, also in the middle of a request; that request then has
  no timeout (`Embedder.SecondReadyDisarms`). `Embedder.TimedExactly`: a run times every request a live child has
  in hand if and only if no such `ready` comes.
- *Lost answers.* A commit the host does not hear of is handed over again, and may be cut differently. The saved
  offset is exact all the same and the tables are those of the lines up to it, once each
  (`Delivery.TablesAreTheLines`).
- *Line cap.* A line is left out exactly if it is longer than both the line cap and one read; with the default
  limits that is the line cap.
- *Backoff.* `MAX_BACKOFF_MS` is never reached: the third failure is the crash loop, so a delay is 1000 or
  2000 ms (part of `Embedder.RunKeeps`).

## Model

| member | source | states |
|---|---|---|
| LeaseStore.LeaseFence.AfterBeginWrite | src/host/pgLease.ts:67-91 | a write passes exactly if the row names this holder and the epoch it believes in and has not expired; loss is reported on the first refusal only |
| LeaseStore.GrantRule | src/host/pgLease.ts:25-35 | a grant is refused exactly while another process's lease runs; otherwise it counts the epoch up and runs for the ttl |
| LeaseStore.OwnerRule | src/host/pgLease.ts:36-47 | the owner's renew always succeeds and its release always frees; nobody else's does anything |
| LeaseStore.MemoryStore.Acquire | src/host/lease.ts:29-33 | grants exactly when free, expired or already ours, with the next epoch; otherwise the row is untouched |
| LeaseStore.MemoryStore.Extend | src/host/lease.ts:34-38 | extends only for the owning holder and epoch |
| LeaseStore.MemoryStore.Free | src/host/lease.ts:39-41 | clears only for the owning holder and epoch, and keeps the epoch |
| LeaseStore.StoresAgree | src/host/pgLease.ts:24-48 | rows that differ only in the expiry of a free row, or in a missing row, give the same answers to every sequence of calls |
| LeaseStore.RunMemory | src/host/lease.ts:26-43 | a new in-memory store answers every sequence of calls as the database does from an empty table |
| LeaseManagers.LeaseManager.GetState | src/host/lease.ts:102-104 | reads `standby` from the local deadline on |
| LeaseManagers.LeaseManager.BeginStep | src/host/lease.ts:121-146 | one step in flight; acquire in standby, renew before the deadline, lose after it; nothing once stopped |
| LeaseManagers.LeaseManager.ResumeStep | src/host/lease.ts:133-150 | a grant makes a holder whose deadline counts from before the call; after stop it is handed back; a failed renew loses the lease |
| LeaseManagers.LeaseManager.FailStep | src/host/lease.ts:151-155 | a rejected call loses the lease on a timeout or past the deadline only |
| LeaseManagers.LeaseManager.ExtendFrom | src/host/lease.ts:158-161 | the deadline is one renew interval short of the ttl counted from before the call |
| LeaseManagers.LeaseManager.DeadlineFired | src/host/lease.ts:163-172 | the timer loses the lease only for a running holder past its deadline |
| LeaseManagers.LeaseManager.LoseLease | src/host/lease.ts:175-192 | only a holder loses; losing halts for good and emits `lost` once |
| LeaseManagers.LeaseManager.CallStop | src/host/lease.ts:195-197 | stop halts at once |
| LeaseManagers.LeaseManager.ResumeStop | src/host/lease.ts:198-201 | stop ends in standby and releases exactly if it was holder |
| LeaseManagers.RunShape | src/host/lease.ts:114-201 | over every interleaving of ticks, answers, failures, timers, markLost and stop: `acquired` at most once, `lost` at most once and only after it |
| LeaseManagers.AfterHalt | src/host/lease.ts:126-138 | after halt no acquire or renew is issued, `holder` is not entered again, and a late grant is released with its own epoch |
| LeaseManagers.LosesExactly | src/host/lease.ts:145-184 | exactly which inputs make a holder give up, with which reason, and that it then halts and says so once |
| LeaseManagers.AsksExactly | src/host/lease.ts:121-146 | what a tick asks for: a grant in standby, a renewal of its own epoch while the lease lasts, nothing when stopped or busy |
| LeaseManagers.AnswersExactly | src/host/lease.ts:133-148 | a grant or renewal counts from the clock read before the call; a refusal changes nothing |
| LeaseManagers.StopExactly | src/host/lease.ts:195-201 | stop halts at once, and a holder then releases its own epoch |
| LeaseProtocol.RunKeepsSafe | src/host/lease.ts:102-161 | in every run every local deadline, mapped to the database clock, stays `renewMs` short of an expiry the row guarantees |
| LeaseProtocol.MutualExclusion | src/host/lease.ts:102-161 | in every reachable state at most one manager reads `holder`, and the row names it for at least `renewMs` past its deadline |
| LeaseProtocol.ExecKeepsProtection | src/host/pgLease.ts:25-47 | no store transaction of anyone shortens what a running process relies on |
| LeaseProtocol.ExclusionNeedsMargin | src/host/lease.ts:92-100 | exclusion over all runs holds if and only if the renew interval is not negative |
| LeaseProtocol.NegativeRenewClashes | src/host/lease.ts:99-99 | for every negative renew interval a reachable state with two holders |
| LeaseProtocol.RunKeepsFence | src/host/pgLease.ts:21-47 | in every run grants count up by one and every committed write carries the holder and epoch of the latest grant |
| LeaseProtocol.FencedWrites | src/host/pgLease.ts:66-91 | committed epochs never decrease, and nothing of an older epoch commits after a newer grant |
| LeaseProtocol.CommitSeesItsRow | src/host/pgLease.ts:66-91 | an open fenced transaction finds the row as it checked it until it ends, expiry or not |
| LeaseProtocol.WritesBeganLive | src/host/pgLease.ts:78-90 | in every run every committed write was begun by the process and epoch of a row that had not expired |
| LeaseProtocol.TxsGrow | src/host/pgLease.ts:78-90 | a fenced transaction begins exactly on a live row of its own process and epoch |
| LeaseProtocol.AnsweredHolderStays | src/host/lease.ts:145-161 | a holder whose row still names it and whose ticks are answered in time stays holder under its epoch, over any number of renewals |
| LeaseProtocol.StopHandsOver | src/host/lease.ts:195-201 | after a stopped holder's release has run, the next process may take the row without waiting for expiry |
| TranscriptIngest.HostIngest.Process | src/host/hostIngest.ts:107-133 | terminates and keeps the rows exact; it completes unless the store refused a chunk, an answer was lost or stop came; when it completes, every line of the file it found that counts has been handed over |
| TranscriptIngest.HostIngest.ReadFrom | src/host/hostIngest.ts:149-200 | keeps the rows exact; it fails exactly if a chunk was refused or its answer lost; without failure or stop it advances or there is no complete line |
| TranscriptIngest.HostIngest.FindNewline | src/host/hostIngest.ts:136-146 | the first line feed at or after the position, or -1 if there is none |
| TranscriptIngest.HostIngest.Turn | src/host/hostIngest.ts:186-197 | one line joins the pending chunk, flushing first where a bound would break |
| TranscriptIngest.HostIngest.Flush | src/host/hostIngest.ts:172-184 | lines, offset and mark move together; a failed flush leaves the mark, and rows and offset too unless the answer to its commit was lost; an empty chunk moves only the mark in memory |
| TranscriptIngest.HostIngest.Commit | src/main/db.ts:709-776 | rows and saved offset commit together or not at all, and the host may or may not hear of it; a transaction carries 1 to 500 lines whose raw sizes sum to at most the chunk bound, unless it is one line |
| TranscriptIngest.FullIsPast | src/host/hostIngest.ts:191-191 | after a commit the host did not hear of, the repeated chunk is not cut short of the saved offset |
| TranscriptIngest.CommitHandsOver | src/host/hostIngest.ts:172-182 | a transaction from the mark, behind or ahead of the saved offset, moves the offset to its end and repeats only lines handed over before |
| TranscriptIngest.HostIngest.SkipLine | src/host/hostIngest.ts:158-163 | a line longer than the cap and than one read is passed over in memory and nothing else changes |
| TranscriptIngest.HostIngest.Restart | src/host/hostIngest.ts:60-62 | a restart resumes from the saved offset with the rows still exact |
| TranscriptIngest.HostIngest.Replace | src/host/hostIngest.ts:121-124 | a new inode is handed over from its start, after what came before |
| Delivery.ReplacedFileAddsNothing | src/host/hostIngest.ts:123-124 | re-reading a transcript whose lines were handed over before changes no event and no rollup |
| Delivery.TablesAreTheLines | src/host/hostIngest.ts:107-207 | after any history of a host the tables, event numbers aside, are those of exactly the lines up to the saved offset, each once, after what earlier files brought |
| Delivery.AgainTables | src/main/db.ts:797-808 | however often lines come again, the tables, event numbers aside, are those of the lines once each |
| Delivery.ChunksAreOneBatch | src/main/db.ts:720-775 | chunk after chunk gives the same tables as all lines at once |
| Delivery.DeliveredAreStored | src/main/db.ts:742-750 | every well-formed line handed over is stored under its key |
| TranscriptIngest.HostIngest.Lifetime | src/host/hostIngest.ts:107-200 | over every history of passes, failed chunks, lost answers, stops, crashes and appends: what was handed over is exactly the complete non-blank lines up to the saved offset that are no longer than the cap or one read, in order, once each unless an answer was lost, and then only repeated; it is the concatenation of the committed transactions, each within the line bound and, summed over its lines, the byte bound unless it is one line |
| TranscriptIngest.HostIngest.ExactWhenLinesFit | src/host/hostIngest.ts:107-200 | if every line fits and every answer arrived, the rows are all non-blank lines, once each |
| TranscriptIngest.LinesRoundTrip | src/host/hostIngest.ts:185-197 | joined by line feeds the lines are the bytes of the file prefix |
| Rollups.ContextMaxIsMax | src/main/db.ts:568-576 | the recomputed value is attained and is an upper bound |
| Rollups.IngestOneKeepsExact | src/main/db.ts:799-862 | one line keeps all three rollups equal to recomputation, and keys unique |
| Rollups.IngestLinesKeepsExact | src/main/db.ts:742-759 | so does a chunk of lines, malformed ones included |
| Rollups.DeleteKeepsExact | src/main/db.ts:2229-2242 | deleting a session keeps the rollups equal to recomputation |
| Rollups.WithoutGroups | src/main/db.ts:2231-2234 | deleting a session's events empties its groups and leaves every other group as it was |
| Rollups.RewriteKeepsExact | src/main/db.ts:2321-2330 | rewriting stored lines changes no group |
| Rollups.RollupsRefineRecomputation | src/main/db.ts:516-589 | at every commit boundary of every history the rollups equal their recomputation from the events, group by group |
| RollupColumns.CostsAreColumnSums | src/main/db.ts:538-546 | after every history session_costs has a row exactly for every group with events, and each column is the sum of the events' column of that name, '' standing for NULL in the key |
| RollupColumns.StatsAreMaxima | src/main/db.ts:568-576 | session_stats has a row exactly for every session with assistant events: the largest sum of input, cache-read and cache-creation tokens among them |
| RollupColumns.ToolsAreCounts | src/main/db.ts:585-588 | session_tool_counts has a row exactly for every tool used in a session: the number of its uses |
| RollupColumns.InsertExactly | src/main/db.ts:799-804 | a line is stored, with its own columns and text, exactly if its session has no event with its key |
| RollupColumns.RewriteExactly | src/main/db.ts:2323-2330 | a rewrite gives each named event the last text given for its id and changes nothing else |
| RollupColumns.DeleteExactly | src/main/db.ts:2231-2234 | a delete removes exactly the session's events and rows |
| Rollups.ReplayChangesNothing | src/main/db.ts:797-808 | lines already stored insert nothing and change no table |
| Rollups.IngestStores | src/main/db.ts:797-804 | ingest loses no event and stores every well-formed line's key |
| Rollups.IngestIsIdempotent | src/main/db.ts:797-808 | ingesting again any lines that came before, in any order and number, changes no table |
| TabMapping.StepKeepsLit | src/main/db.ts:1559-1593 | no signal, ingest, rollback or restart moves a tab from a real session to one without transcript; only deleting that session ends its row |
| TabMapping.NeverDark | src/main/db.ts:1540-1598 | over every run a tab that shows a session with a transcript goes on showing one |
| TabMapping.GuardLossExactly | src/main/db.ts:1567-1591 | an operation keeps every parked row covered if and only if no other tab of the workspace waits for the id whose key it drops |
| TabMapping.GuardExactly | src/main/db.ts:1551-1598 | a run keeps every parked row covered throughout if and only if none of its operations strands one |
| TabMapping.GuardCoversParked | src/main/db.ts:171-194 | while no two tabs of a workspace share a parked id, the guard covers every parked row after every operation |
| TabMapping.FirstLinePromotes | src/main/db.ts:751-758 | under that guard the first ingested line commits every tab waiting for the session, and no other |
| TabMapping.RecordExactly | src/main/db.ts:1560-1592 | a signal is followed at once if the tab is new, shows nothing real, shows that session, or the session has a transcript; otherwise the tab keeps what it shows and waits; no other tab changes |
| TabMapping.LearnExactly | src/main/db.ts:1508-1528 | the unconditional commit |
| TabMapping.IngestExactly | src/main/db.ts:750-758 | an ingest makes its session real and commits exactly the tabs that wait for it, if the guard has its key |
| TabMapping.DeleteExactly | src/main/db.ts:2235-2238 | a delete takes exactly the rows of the tabs that show the session |
| TabMapping.SignalIsFollowed | src/main/db.ts:1540-1598 | over every run that does not divert it, a tab follows its last signal, and shows the session once it has been ingested |
| TabMapping.MoveStrands | src/main/db.ts:1583-1586 | with a shared parked id, moving one tab on takes the key the other needs |
| TabMapping.StaysStranded | src/main/db.ts:754-758 | over every run that neither puts the key back nor touches that tab, it stays parked, however often the session is ingested |
| TabMapping.RestartRescues | src/main/db.ts:185-194 | after a restart the next line moves it |
| TabMapping.SharedParkingReached | src/main/db.ts:1551-1598 | that state is reached by ordinary operations |
| StateStore.StateStore.IngestOne | src/main/db.ts:788-862 | updates events and rollups in place as the value function does |
| StateStore.StateStore.IngestChunk | src/main/db.ts:727-766 | a chunk commits rows, rollups, promotion and guard together; a failure anywhere leaves all of them, guard included, as they were |
| StateStore.StateStore.IngestBatch | src/main/db.ts:709-776 | exactly a prefix of whole chunks is ingested, all of it on success |
| StateStore.StateStore.PromotePending | src/main/db.ts:1604-1621 | every tab of the workspace waiting for the session, and no other, is committed to it |
| StateStore.StateStore.CommitMapping | src/main/db.ts:1464-1493 | commits, clears the parked id, and returns what was there before |
| StateStore.StateStore.LearnBrokerSessionMapping | src/main/db.ts:1508-1528 | commits and frees the guard key, or rolls back with no key lost |
| StateStore.StateStore.RecordBrokerSessionMapping | src/main/db.ts:1551-1598 | commits or parks exactly by the rule, and a rollback loses no guard key |
| StateStore.StateStore.Rehydrate | src/main/db.ts:185-194 | the guard becomes exactly the keys of the parked rows |
| StateStore.StateStore.DeleteSession | src/main/db.ts:2229-2242 | removes the session from events, rollups, mappings and sessions, and nothing else |
| StateStore.StateStore.RewriteEventRaw | src/main/db.ts:2323-2330 | rewrites the named lines and nothing else |
| Embedder.RunKeeps | src/main/embedderClient.ts:108-253 | in every run: conservation; a ready live child with a queue has one in flight; a backoff timer exactly in backoff, a ready timer while a child that is not killed starts, none when dead; backoff is 1000 or 2000 ms; message ids count the sends and what is in flight is the last |
| Embedder.TimedExactly | src/main/embedderClient.ts:169-216 | a run keeps every request in the hands of a live child timed throughout if and only if no `ready` of that child comes while one is in flight |
| Embedder.SecondReadyDisarms | src/main/embedderClient.ts:181-184 | a run after which a request is in flight at a live child with no timer |
| Embedder.RequestsConserved | src/main/embedderClient.ts:108-253 | every request is in exactly one of settled, in flight and queued, in submission order; it settles once; it is sent at most twice |
| Embedder.OnlyItsReplySettles | src/main/embedderClient.ts:167-206 | only a reply of the current, unkilled child with the id of the request's own last send, an id no other send has, settles a request by its content |
| Embedder.ReplySettles | src/main/embedderClient.ts:191-205 | in every run the reply of the live child to its last send settles that request by its content, kills nobody, and the head of the queue goes out |
| Embedder.MismatchKills | src/main/embedderClient.ts:191-195 | a reply with any other id settles nothing and has exactly that child killed |
| Embedder.OldChildrenAreIgnored | src/main/embedderClient.ts:168-168 | what a replaced or killed child says changes nothing |
| Embedder.AnsweredInTurn | src/main/embedderClient.ts:191-216 | a child that answers in turn settles the request in flight and then the whole queue, in order, each by its own reply |
| Embedder.ReadyExactly | src/main/embedderClient.ts:169-186 | ready with the right protocol gives the child work; with the wrong one it is the end for everything waiting |
| Embedder.LossExactly | src/main/embedderClient.ts:218-244 | the third failure within the window ends it; short of that the request in flight is retried if it was sent once and fails if twice, and the client idles or backs off 1000 or 2000 ms |
| Embedder.TimerExactly | src/main/embedderClient.ts:143-146 | a late child is killed; after a backoff a new one is started |
| Embedder.EmbedExactly | src/main/embedderClient.ts:108-116 | a request is refused when dead, starts a child when idle, is sent at once when one is free, and queued otherwise |
| Embedder.DisposeExactly | src/main/embedderClient.ts:119-123 | dispose turns away everything that waits, in order |
| Embedder.DeadIsAbsorbing | src/main/embedderClient.ts:246-253 | once dead, always dead, with nothing waiting, no child and no timer |
| Embedder.EmbedderClient.EmbedTexts | src/main/embedderClient.ts:108-116 | a request is queued and pumped or starts the child; refused when dead |
| Embedder.EmbedderClient.Launch | src/main/embedderClient.ts:125-146 | a spawn arms the ready timer; a failed spawn counts as a lost child |
| Embedder.EmbedderClient.Receive | src/main/embedderClient.ts:167-206 | ready, fatal, matching and mismatching replies, and those of old or killed children |
| Embedder.EmbedderClient.PumpQueue | src/main/embedderClient.ts:208-216 | sends the head of the queue under a new id exactly if ready, idle and not killed |
| Embedder.EmbedderClient.ChildGone | src/main/embedderClient.ts:218-244 | returns or fails the request in flight, counts the failure, then gives up, idles or backs off |
| Embedder.EmbedderClient.ReturnInFlight | src/main/embedderClient.ts:222-228 | back to the head of the queue after the first failure, rejected after the second |
| Embedder.EmbedderClient.DropOldFailures | src/main/embedderClient.ts:230-230 | exactly the failures inside the window remain |
| Embedder.EmbedderClient.GiveUp | src/main/embedderClient.ts:246-253 | rejects the request in flight and then the whole queue, in order |
| Embedder.EmbedderClient.TimerFired | src/main/embedderClient.ts:261-265 | kills on ready or request timeout, restarts after backoff |
| AsyncCache.RunIsValid | src/main/asyncCache.ts:44-97 | the invariant of entries and flights in every run, the size bound included |
| AsyncCache.HitsAreFresh | src/main/asyncCache.ts:44-50 | a hit is the value its compute resolved with, from a compute begun after every invalidation so far, before the horizon of every markStale since, and within its ttl |
| AsyncCache.MissesAreFresh | src/main/asyncCache.ts:51-76 | a joined or new flight began after every invalidation so far |
| AsyncCache.OneFlightPerKey | src/main/asyncCache.ts:51-61 | two unfinished, undropped flights of a key are the same; entries stay within maxEntries when that is at least 1 |
| AsyncCache.ServedExactly | src/main/asyncCache.ts:44-50 | in every run a stored value is served exactly while its ttl lasts and no markStale since its compute began has run out |
| AsyncCache.ResolvedIsStored | src/main/asyncCache.ts:64-71 | an undropped compute is stored with the horizon of its flight; a dropped or rejected one stores nothing |
| AsyncCache.EntryStays | src/main/asyncCache.ts:65-68 | only a hard drop, a newer value for the key, or a new key at the size bound takes an entry |
| AsyncCache.StaysStored | src/main/asyncCache.ts:44-97 | so over any run without those the value stays stored |
| AsyncCache.AsyncKeyedCache.Lookup | src/main/asyncCache.ts:44-61 | hit, shared flight or new flight |
| AsyncCache.AsyncKeyedCache.ComputeResolved | src/main/asyncCache.ts:64-74 | stores unless dropped, evicting all when full, and unregisters only itself |
| AsyncCache.AsyncKeyedCache.ComputeRejected | src/main/asyncCache.ts:70-74 | stores nothing and unregisters only itself |
| AsyncCache.AsyncKeyedCache.InvalidateKey | src/main/asyncCache.ts:78-85 | drops entry and flight of the key |
| AsyncCache.AsyncKeyedCache.MarkKeyStale | src/main/asyncCache.ts:86-92 | lowers the horizon of entry and flight, never raises it |
| AsyncCache.AsyncKeyedCache.ClearAll | src/main/asyncCache.ts:93-97 | drops every entry and every registered flight |
| Replay.ReplayBuffer.Append | src/host/attachHub.ts:74-89 | the chunks are the last min(total, cap) bytes ever appended, and `wrapped` says exactly whether bytes were dropped |
| Replay.ReplayBuffer.Evict | src/host/attachHub.ts:77-88 | leaves exactly the last cap bytes, and sets `wrapped` exactly if some were dropped |
| Replay.ReplayBuffer.TakeSnapshot | src/host/attachHub.ts:91-94 | the snapshot of the whole output so far |
| Replay.TrimToSafeStart | src/host/attachHub.ts:54-66 | cuts at the earliest escape, behind the first line feed, or behind leading continuation bytes |
| Replay.SnapshotCut | src/host/attachHub.ts:53-66 | a snapshot starts at a position of the output that is its start, its end, in front of a non-continuation byte, or behind a line feed |
| Replay.SafeStartIsEarliest | src/host/attachHub.ts:54-66 | the trim goes to the first escape or line start in the ring; without one it drops only leading continuation bytes |
| Replay.SnapshotIsLongest | src/host/attachHub.ts:91-94 | a newcomer gets everything while it fits, and otherwise the ring from the first such position on |
| Replay.LastBytesAreTheLast | src/host/attachHub.ts:74-89 | the ring holds as many of the latest bytes as fit, without a gap |
| Replay.SnapshotIsWhole | src/host/attachHub.ts:53-95 | a snapshot is a suffix of the output of at most cap bytes, and valid UTF-8 (section 3 of RFC 3629) whenever the output is |
| AttachStreams.StepKeepsValid | src/host/attachHub.ts:113-186 | attach, output, end, detach, close (answered or not) and dispose keep every attached channel listed by its tap, and every listing accounted for: attached, disconnected, or left by a CLOSE |
| AttachStreams.RunIsValid | src/host/attachHub.ts:113-186 | so in every run |
| AttachStreams.FanFine | src/host/attachHub.ts:139-142 | output of any tap, ended or not, extends exactly the streams attached to it, if no other tap feeds them |
| AttachStreams.RunFine | src/host/attachHub.ts:113-186 | a stream that is complete and fed by no other tap stays so through any events while attached |
| AttachRuns.AttachJoins | src/host/attachHub.ts:449-469 | an accepted ATTACH joins the session's tap and leaves other viewers alone; stream and ENDED begin right: the snapshot of the output so far |
| AttachRuns.AttachRefused | src/host/attachHub.ts:451-462 | otherwise only the refusal is sent; ATTACH is accepted exactly if neither channel nor session is taken on the connection and the tap is open or opens now |
| AttachSource.DeliversWhatWasSent | src/host/attachHub.ts:449-469 | in every run, from an accepted ATTACH on, whatever happens while it stays attached, the channel carries the snapshot of what the broker had sent for the session, during the opening too, followed by every byte it sends, with no gap, repeat or foreign byte, if and only if no other tap whose broker connection lasts lists the viewer under that channel at the ATTACH |
| AttachSource.TapsHoldWhatWasSent | src/host/attachHub.ts:127-151 | in every run a tap's output is exactly what the events brought it, and it has ended exactly if the broker, its loss or an owner's CLOSE ended it |
| AttachSource.TellsWhatHappened | src/host/attachHub.ts:144-151 | likewise the viewer has been told ENDED exactly if the session is over, if and only if it was over at once or no other live tap lists it |
| AttachSource.RightFromTheBroker | src/host/attachHub.ts:471-481 | in every run without reuse of closed channels, every attached channel is right, measured against the broker |
| AttachRuns.StreamsAreComplete | src/host/attachHub.ts:449-469 | the same condition with the stream measured against the tap's output |
| AttachRuns.EndsAreTold | src/host/attachHub.ts:144-151 | likewise it has been told ENDED exactly if its session has ended, if and only if the session was over at once or no other live tap lists it |
| AttachRuns.CompleteExactly | src/host/attachHub.ts:139-142 | the same condition in any valid state with a complete stream |
| AttachRuns.ToldExactly | src/host/attachHub.ts:144-151 | and for ENDED |
| AttachRuns.RightWithoutReuse | src/host/attachHub.ts:471-481 | in every run that never attaches on a channel whose CLOSE was accepted before, every attached channel is complete since its own ATTACH and its ENDED is right |
| AttachRuns.ShutMeansClosed | src/host/attachHub.ts:471-478 | those channels are exactly the ones on which an owner's CLOSE found something attached |
| AttachRuns.ReusedChannelCrosses | src/host/attachHub.ts:477-478 | attach, CLOSE (answered or not), attach another session on the same channel: the first one's output arrives as the second's |
| AttachRuns.ReusedChannelEnds | src/host/attachHub.ts:382-390 | and, if the CLOSE failed, so does its ENDED |
| AttachRuns.DetachExactly | src/host/attachHub.ts:424-430 | DETACH takes the channel, and the viewer off its tap; the last one to leave drops the upstream; an unknown channel is only refused |
| AttachRuns.CloseExactly | src/host/attachHub.ts:471-481 | CLOSE by the owner takes the channel and ends the session if the broker answers; by others it is only refused |
| AttachRuns.DisposeExactly | src/host/attachHub.ts:366-372 | a closed viewer gets nothing more and is on none of the taps it was attached to |
| AttachEnds.EndTells | src/host/attachHub.ts:144-151 | ending a tap tells exactly the channels it lists |
| AttachEnds.JoinTells | src/host/attachHub.ts:463-468 | a newcomer to an ended session is told so after its snapshot |
| AttachHub.AttachHub.FanOut | src/host/attachHub.ts:139-142 | adds to the tap's output and gives one frame to each open viewer, with no test of `ended` |
| AttachHub.AttachHub.Gone | src/host/attachHub.ts:132-132 | a dropped broker connection ends the tap and stops its output |
| AttachHub.AttachHub.End | src/host/attachHub.ts:144-151 | ends once, retires the tap, and tells each open viewer |
| AttachHub.AttachHub.SendEach | src/host/attachHub.ts:349-355 | each listed open viewer gets its own frame, once, and nobody else any |
| AttachHub.AttachHub.Open | src/host/attachHub.ts:127-137 | output and end may come before the answer; a failed opening retires a tap without viewers |
| AttachHub.AttachHub.Attach | src/host/attachHub.ts:449-469 | refusals, tap, opening, join, greeting, in place as in the value function |
| AttachHub.AttachHub.LeaveTap | src/host/attachHub.ts:179-185 | the last viewer to leave drops the upstream and retires the tap |
| AttachHub.AttachHub.Detach | src/host/attachHub.ts:424-430 | takes the channel, leaves its tap and no other |
| AttachHub.AttachHub.Close | src/host/attachHub.ts:471-481 | takes the channel, then ends the tap, or fails with the tap untouched |
| AttachHub.AttachHub.Dispose | src/host/attachHub.ts:366-372 | a closed viewer leaves the taps of all its channels, one after the other |
| TokenBucket.Potential | src/host/attachHub.ts:312-319 | admitted frames plus tokens left never exceed the tokens at the start plus those accrued |
| TokenBucket.RateBound | src/host/attachHub.ts:312-319 | frames admitted between any two instants number at most burst + rate × elapsed, over every sequence of frames |
| TokenBucket.TokensInRange | src/host/attachHub.ts:312-319 | tokens stay in [0, burst] |
| TokenBucket.AccruedIsTheRate | src/host/attachHub.ts:314-314 | tokens accrue at the configured rate per second |
| TokenBucket.AdmitsExactly | src/host/attachHub.ts:312-319 | a frame is admitted exactly if a token is left or has accrued since the last frame, and the burst allows one |
| TokenBucket.PauseIsRewarded | src/host/attachHub.ts:312-319 | whatever came before, after a pause worth one token the next frame is admitted |
| TokenBucket.TokensConserved | src/host/attachHub.ts:312-319 | while no refill runs into the burst, admitted frames plus tokens left are exactly the tokens at the start plus those accrued |
| TokenBucket.ControlBucket.TakeControlToken | src/host/attachHub.ts:312-319 | refill, cap and take on the viewer's fields |
| Owners.RunIsValid | src/host/events.ts:49-62 | in every interleaving an owner entry no newer than a sweep's mark that its listing does not show belongs to a life that is over |
| Owners.PruneSparesTheLiving | src/host/events.ts:49-62 | an owner removed by a prune was not in the listing and its session's life is over |
| Owners.PruneExactly | src/host/attachHub.ts:228-230 | a prune removes exactly the entries up to its mark that its listing does not show |
| Owners.SweepExactly | src/host/events.ts:49-53 | a sweep's mark is the latest entry at its start and its listing what is alive when the broker answers |
| Owners.OwnersAreCreators | src/host/attachHub.ts:488-489 | in every run the owner on record is the one whose create began the recorded life of the session |
| Owners.CreatedExactly | src/host/attachHub.ts:213-216 | a create the host hears of is on record under its creator's key, newest of all |
| Owners.OwnerTable.Set | src/host/attachHub.ts:213-216 | records the owner under a new sequence number |
| Owners.OwnerTable.Drop | src/host/attachHub.ts:218-221 | forgets owner and number |
| Owners.OwnerTable.Prune | src/host/attachHub.ts:228-230 | removes exactly the entries up to the mark that are not live |
| ByteOrder.CompareBytes | src/main/db.ts:1979-1994 | the scan computes the comparison |
| ByteOrder.CompareFlips | src/main/db.ts:1979-1994 | swapping the arguments negates the result, on all strings |
| ByteOrder.CompareZero | src/main/db.ts:1979-1994 | zero if and only if equal, on all strings |
| ByteOrder.CompareChains | src/main/db.ts:1979-1994 | transitive, strictly where either step is strict |
| ByteOrder.CompareIsUtf8Order | src/main/db.ts:1978-1994 | on well-formed strings (section 2.1 of RFC 2781) the sign is the lexicographic order of the UTF-8 encodings |
| ByteOrder.Utf8OfIsValid | src/main/db.ts:1978-1978 | the encodings compared are valid UTF-8 (section 3 of RFC 3629) |
| CostRows.LeqTotal | src/main/db.ts:1998-2002 | the row order is total, and rows that compare equal have the same key |
| CostRows.LeqChains | src/main/db.ts:1998-2002 | and transitive |
| CostRows.RowsAreInKeyOrder | src/main/db.ts:1998-2002 | rows come by workspace, then model, then tier, each by its UTF-8 bytes with NULL as '' |
| CostRows.InsertionSort | src/main/db.ts:2053-2058 | in place: sorted, and a permutation of what it was |
| CostRows.SortedIsUnique | src/main/db.ts:2041-2042 | rows with distinct keys have only one sorted arrangement |
| CostRows.SortTwoStorageOrders | src/main/db.ts:2041-2058 | two storage orders of a session's rows sort to the same sequence |
| FrameCodec.HeaderRoundTrip | src/main/broker.ts:101-108 | reading the header back gives the length, in both byte orders |
| FrameCodec.HeaderIsTheLength | src/main/broker.ts:101-104 | the broker's header is the length with its highest byte first, the sidecar's with its lowest |
| FrameCodec.FitsExactly | src/main/broker.ts:83-88 | a frame fits exactly with 1 to 1 MiB + 1 bytes of type and payload, or up to 64 MiB of JSON |
| FrameCodec.FrameOnTheWire | src/main/broker.ts:101-108 | length, then type and payload |
| FrameCodec.ChannelOnTheWire | src/main/broker.ts:114-119 | channel, highest byte first, then the body |
| FrameCodec.DrainSplit | src/main/embedderClient.ts:25-40 | draining in two goes, split anywhere, is draining once |
| FrameCodec.FramesRoundTrip | src/main/broker.ts:79-108 | the frames of any list within the limit come back, nothing else, nothing left over |
| FrameCodec.FrameReader.Push | src/main/broker.ts:71-77 | the bytes held are those not yet taken of everything received |
| FrameCodec.FrameReader.Consume | src/main/broker.ts:79-99 | takes every complete frame in order and keeps the rest; on a refused length the broker's reader has handed out the frames before it, the sidecar's returns none of that push |
| FrameCodec.ReadChunks | src/main/broker.ts:63-99 | for every list of frames and every split of their bytes into chunks, exactly those frames in order; on any bytes whether it throws, and what the broker reader hands out, does not depend on the split |
| FrameCodec.BadStays | src/main/broker.ts:83-88 | a refused length is refused however much follows it |
| FrameCodec.WholeFrames | src/host/attachHub.ts:266-276 | the same frames as the stream reader; a message ends whole, partial or malformed |
| FrameCodec.ChannelRoundTrip | src/main/broker.ts:114-124 | channel and body come back |
| FrameCodec.SendInput | src/main/broker.ts:436-440 | one frame per write, each within the limit, and the parts concatenate to the data |
| FrameCodec.InputIsUnderstood | src/main/broker.ts:436-440 | the receiver takes each such write for one whole INPUT frame with the channel and the part |
| LineSplitter.ByteLengthAtLeast | src/main/mcpLines.ts:31-32 | the UTF-8 length is at least the UTF-16 length, lone surrogates included |
| LineSplitter.ByteLengthIsUtf8 | src/main/mcpLines.ts:26-26 | on well-formed strings it is the length of the encoding |
| LineSplitter.SplitRebuilds | src/main/mcpLines.ts:19-23 | lines and tail joined are the stream, with no newline inside a line |
| LineSplitter.SplitOfUnsplit | src/main/mcpLines.ts:19-23 | and that is the only such reading of a stream |
| LineSplitter.OneCallPerLine | src/main/mcpLines.ts:5-7 | the k-th callback is the answer to the k-th line, up to the first that stops the stream |
| LineSplitter.OwedIsOnePerLine | src/main/mcpLines.ts:5-7 | if nothing stops the stream: one call per complete line, the line itself if within the limit and one oversize if not, and one more for a tail that is too long already |
| LineSplitter.PassedOnExactly | src/main/mcpLines.ts:26-27 | a well-formed line is passed on exactly if its UTF-8 encoding is within the limit |
| LineSplitter.Splitter.TakeLine | src/main/mcpLines.ts:21-27 | a newline gives one answer, or none if that line's oversize is already out |
| LineSplitter.Splitter.KeepTail | src/main/mcpLines.ts:29-36 | the tail is kept while short enough; one oversize when it is not |
| LineSplitter.Splitter.Feed | src/main/mcpLines.ts:16-37 | after any chunk, callbacks and state are those of the whole stream so far, and the buffer is within max |
| LineSplitter.FeedAll | src/main/mcpLines.ts:8-38 | every chunking of a stream makes the callbacks owed for it in one piece |
| Paging.AskRoundTrip | src/host/historyRead.ts:40-50 | a follow-up request is accepted exactly if limit and cursor are in range, and then unchanged |
| Paging.ListingIsOrdered | src/host/historyRead.ts:62-79 | the full list holds every visible session once, newest first, then by id |
| Paging.ListingIsNewestFirst | src/host/historyRead.ts:76-77 | it is of one workspace, by activity with the latest first and none as 0, and then by the UTF-8 bytes of the id |
| Paging.IdCharsExactly | src/host/historyRead.ts:11-11 | an id consists of letters, digits and "_.:-" |
| Paging.LaterIsSuffix | src/host/historyRead.ts:65-67 | the keyset predicate cuts an ordered list right behind the cursor's row |
| Paging.PageIsSlice | src/host/historyRead.ts:68-114 | a page is the next stretch of the full list, and `next` its last row exactly if more follow |
| Paging.FollowNext | src/host/historyRead.ts:40-114 | following `next` terminates; the pages concatenate to the full list, each full but the last; it is refused midway exactly if a page ends in an unusable cursor |
| Paging.EveryPageSizeCompletes | src/host/historyRead.ts:46-48 | all page sizes complete if and only if every row but the last has an activity in 0..2^53 - 1 |
| Paging.NegativeActivityStalls | src/host/historyRead.ts:46-48 | two sessions with negative activity and one row a page: refused |

## Left out

- Lease: a store transaction is one atomic step with the lock conflicts the source states; clocks run at equal
  rate with arbitrary offsets; `start()` and the timers that drive ticks are events that may come at any time.
- Lease: two uses of one holder id, which the source rules out.
- Ingest: short reads, a file that shrinks in place, and a missing inode.
- Ingest: decoding, trimming and redaction of a line; rows hold the raw line as handed to the store, and the set of
  blank lines is a parameter.
- Ingest: directory scans, the watcher and the queue per path.
- Store: the SQL engines. Tables are sequences and maps, each transaction either happens or is rolled back.
- Store: session metadata, titles, embeddings, retention watermarks and cache notifications; line parsing is a parameter.
- Store: the chunked purge of a workspace, which is deliberately not one transaction.
- TabMapping.NeverDark: excludes `learnBrokerSessionMapping`, the unconditional commit, which can move a tab anywhere.
- Embedder: JSON, vector decoding, stderr and log texts; a request is its number, a reply its id and whether it decodes.
- Attach hub: joining, the snapshot and the first frames are one step; other suspension points inside attach are not modelled.
- Attach hub: taps and viewers are entries of two collections, so aliasing between the objects is not modelled.
- AttachHub.AttachHub.FanOut: the hub keeps a tap's whole output where the source keeps a ring; `Replay.ReplayBuffer`
  proves that the ring gives the same snapshot.
- AttachHub.AttachHub.Close: taking the channel and the broker's answer are one step; a viewer handles one request at a time.
- Attach hub: tiers, the pending limits, RESIZE, port commands and shutdown.
- TokenBucket.ControlBucket.TakeControlToken: tokens are real numbers, not doubles.
- Owners: `dropOwner` may come at any time; a late exit report that drops the owner of a reused id is outside the
  claim, which is about prunes.
- FrameCodec.WholeFrames: walks the remaining message instead of an offset into it.
- Line splitter: callbacks that feed the splitter again.
- Paging: cost and tag columns of a row, and changes to the table between pages.
- HTTP, RPC, authentication, rate limiting, configuration, bootstrap, the desktop interface and the Rust sidecar.
