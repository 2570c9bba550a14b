# A replicated, durable, watchable key/value store, and a scheduler: what they keep

This project models the storage core of the repository, an etcd-style MVCC keyspace ordered by a Raft
log and made durable by a write-ahead log, and its second core, the pod scheduler. It states what they
promise and proves it, for every input, every run or every reachable state. Where the code falls short
of its promise the code is modelled as it is; a lemma shows the failing input or run, and where the
exact condition under which the code does meet the promise could be found it is stated with it, in both
directions.

Verify everything with `dafny verify dfyconfig.toml`.

## How it is laid out

**Values and functions first, objects beside them.** Each handler and each store operation is a
function on values (`RaftNode`, `Mvcc`, `LogFile`, `Scheduler`), so that lemmas can speak of whole runs.
The classes `RaftObject.Raft`, `MvccObject.Store`, `WalObject.Wal` and `SchedulerObject.PodStore` are the
program's own form: fields updated in place, the loops of the source, and contracts that tie the new
state to the function of the old one.

| files | content |
|---|---|
| `Wrappers`, `Commands`, `Keys`, `Utf8` | options and results; the commands in the log; key order, sorted key lists, ranges; bytes as text |
| `RaftNode`, `RaftCluster` | one node with every handler; any number of nodes and a network that may delay, repeat, reorder and lose |
| `RaftView` | a node with a snapshot and a log suffix, read as if it still had its whole log |
| `RaftInv`, `RaftGrow`, `RaftSteps`, `RaftReplication`, `RaftHandlers`, `RaftDelivery` | the history of a run, the invariant that ties it to every node and message, and its preservation |
| `RaftSafety`, `RaftWaiters`, `RaftCatchUp` | the theorems about runs |
| `RaftReplies`, `RaftTermTest` | which late replies a leader may believe, and safety from what receivers can check; why safety does not need the test for the current term |
| `RaftFaults` | exactly when a delivery to a compacted node does no damage |
| `RaftSlips`, `RaftScript`, `RaftBreaks`, `RaftStale` | runs without one of the checks; how to write out such a run step by step; what some of them end in |
| `Mvcc`, `MvccPlain` | the store; the plain keyspace it refines, one map per revision |
| `MvccChains`, `MvccRefines`, `MvccRuns`, `MvccEvery` | the refinement, operation by operation, over logs whose revocations are right, and over every log |
| `MvccCompaction`, `MvccHistory`, `MvccWatch`, `MvccLeases`, `MvccCas`, `MvccSnapshot`, `MvccSort` | compaction, the event history, watches, the lease index, optimistic concurrency, snapshots, the order of answers |
| `LogFile`, `LogRecovery`, `LogCodec` | the log file as text, torn and glued lines, what is read back, and a line format that meets what is asked of one |
| `Replica`, `ReplicaRuns`, `Recovery`, `TornRecovery` | the store as the fold of the applied entries, over cluster runs, over crashes of a single node, and over crashes inside its appends |
| `MvccObject`, `WalObject`, `RaftObject` | the store, the log files and the node as objects |
| `Scheduler`, `SchedulerRuns`, `SchedulerObject` | requests, usage, filter, choice; runs; the pass over a stored pod |

**The network** is a set of messages that only grows: a message may arrive at any later time, any number
of times or never, which covers delay, loss and the transport's "no reply". A reply carries the parts of
its request that the callback closed over. A node of a cluster may crash between any two of its file
operations: between handlers, right after the term and the vote were made durable, in the apply loop before
or after a snapshot is saved, and between saving a received snapshot and cutting the log. `Recovery` does the
same for a node on its own, and `TornRecovery` lets that node crash inside an append to the log file too.

**Hypotheses of the cluster theorems.** `RaftCluster.Run` lets a message arrive only if it is *sound*:

- `TrueReply`: a late reply to a replication request reaches a leader only if it makes it step down, is a
  refusal, or claims no more than its sender has told this very leadership (`store/raft.js:296-307` checks
  the role, not the term). A reply in the leadership that sent the request is always of this kind;
  `RaftReplies.LateReplies` proves that, and that these are exactly the replies which leave a leader's books
  true. A leader that checks the term as well needs no such hypothesis: `RaftReplies.FreshSafety` is State
  Machine Safety from what receivers can check alone. `RaftStale.StaleReplyBreaksSafety` is a run of five
  nodes in which everything else is sound.
- `ReachesLog`: an append from index 0 does not reach a node that has compacted more than its first entry
  (`store/raft.js:365`, `store/raft.js:382-396`). `RaftFaults.AppendFromStart` gives the exact condition,
  `RaftBreaks.LateAppendBreaksSafety` a run of three nodes without it.
- `ExtendsSnapshot`: a snapshot is not older than the one held and no suffix of another history lies behind
  it (`store/raft.js:413-420`). `RaftFaults.InstallOld` and `RaftFaults.InstallSplices` give the exact
  conditions, `RaftBreaks.OldSnapshotBreaksSafety` a run of three nodes without it.

Each of the three is needed: in each of these runs two nodes apply different commands. So is the comparison
of logs before a vote (`RaftBreaks.BlindVoteBreaksSafety`). The test for the current term before a commit is
not: runs without it are safe as well (`RaftTermTest.SafeWithoutTermTest`), and as long as leaders hear replies
to their own leadership it never decides anything (`RaftTermTest.TermTestNeverDecides`).

Snapshots, crashes and restarts are part of every run; nothing is assumed about timing.

**Hypothesis of the log file theorems.** `LogFile.IsCodec` asks of a line format what line-by-line JSON of
objects gives: no newline inside a line, lines parse back, and neither a proper prefix nor a gluing of two
or more pieces parses. `LogCodec.BracketsAreCodec` shows that it can be met.

**Where the code and its comments disagree** the model follows the code: a torn log file is not rewritten
after it was read (`store/wal.js:69-72` says recovery stops there, `store/raft.js:81` leaves the file as it
is); `rollback` leaves the lease bookkeeping as it was (the comment at `store/mvcc.js:137-141` says it
cannot see into it); a watch from exactly the compaction point is accepted (`store/mvcc.js:389`); and counting
replicas of older terms, which the comment at `store/raft.js:337-339` warns of, would do no harm here, because
a new leader announces itself with an entry and every append it sends reaches past the log it began with.

## Model

| member | source | states |
|---|---|---|
| RaftSafety.ElectionSafety | store/raft.js:164-241 | in every run with crashes and restarts at most one node ever leads a given term, at whatever two moments one looks |
| RaftSafety.LogMatching | store/raft.js:365-398 | two nodes, at any two moments, that hold entries of equal index and term hold equal entries at every smaller index, compacted or not |
| RaftSafety.LeaderCompleteness | store/raft.js:206-221 | what any node has committed is held, entry for entry, by every leader of every later term, then or at any other moment |
| RaftSafety.StateMachineSafety | store/raft.js:430-463 | what two nodes have applied, at any two moments, is a prefix of one another: no two ever apply different entries at an index |
| RaftSafety.AppliedInOrder | store/raft.js:430-436 | a node has applied exactly the indices 1 to lastApplied, in order, and its retained log continues its snapshot without gaps and with terms that never go down |
| RaftSafety.AppendsCoverCommit | store/raft.js:288-295 | every append ever sent has leaderCommit <= prevLogIndex + number of entries |
| RaftSafety.CommitRule | store/raft.js:400-403 | after a sound, matching append, min(leaderCommit, lastIndex) is min(leaderCommit, last new entry), whatever tail the follower keeps |
| RaftSafety.StepOk | store/raft.js:137-486 | every step the code can take, deliveries being sound, keeps the invariant and only extends the history |
| RaftSafety.RunOk | store/raft.js:64-486 | every run has a history that only grows and that the invariant ties to each of its states |
| RaftGrow.LeadersComplete | store/raft.js:340-353 | what a quorum holds from term t when t's leader counts it, with an entry of term t, every later leader started with |
| RaftGrow.QuorumsMeet | store/raft.js:118-120 | two sets of floor(n/2)+1 members share one |
| RaftGrow.UpToDateHolds | store/raft.js:210-214 | a log at least as up to date as one that ends in a prefix of a leader's log holds that prefix |
| RaftGrow.CommittedAgree | store/raft.js:340-353 | two committed prefixes agree wherever both reach |
| RaftSteps.NoSecondLeader | store/raft.js:206-221 | a term that has a leader cannot gather a second quorum of votes |
| RaftHandlers.CountedQuorum | store/raft.js:340-353 | enough entries in the leader's own matchIndex, for an entry of its term, really is a quorum that stores it |
| RaftReplication.AdoptNode | store/raft.js:373-398 | a follower that adopts its leader's log still holds every prefix it has acknowledged or voted on the strength of, as far as later leaders did, and everything it has committed |
| RaftView.MergeView | store/raft.js:373-398 | truncating only at the first real divergence leaves the leader's log as a prefix, and leaves a log that already extends it untouched, snapshot or not |
| RaftView.InstallView | store/raft.js:407-422 | installing a sound snapshot leaves the log if it extends the snapshot, and the snapshot otherwise, as the whole log |
| RaftView.RestartView | store/raft.js:64-85 | a restart changes nothing of the whole log and starts from the snapshot |
| RaftWaiters.WaitersGetTheirOwn | store/raft.js:137-162 | in every reachable state only leaders have waiters, each for the very entry it proposed in the current term; no promise settles twice and each success carries the waiter's own command |
| RaftWaiters.WaitersAlwaysOk | store/raft.js:245-272 | the invariant behind it, over every run |
| RaftCatchUp.ConflictGoesBack | store/raft.js:365-378 | a rejection sends the leader strictly back, and never to or below the follower's snapshot |
| RaftCatchUp.CatchUp | store/raft.js:274-315 | a leader and a follower alone: after at most nextIndex rounds the follower holds the leader's whole log, unless the leader compacted more and must send its snapshot |
| RaftCatchUp.ReachablePairs | store/raft.js:274-315 | any leader and any node not ahead of it, in any reachable state, are such a pair |
| RaftFaults.AppendFromStart | store/raft.js:382-396 | entries from index 1 on keep a compacted node's log gapless if and only if there are none, it compacted nothing, or it compacted just the one entry the request starts with |
| RaftBreaks.LateAppendBreaksSafety | store/raft.js:365-396 | a run of three nodes in which a leader's first append arrives once more, late: the receiver drops an acknowledged, committed entry, is elected and commits another in its place |
| RaftFaults.InstallOld | store/raft.js:413-420 | installing a snapshot keeps the log gapless and forgets nothing if and only if it is not older than the one held |
| RaftFaults.InstallSplices | store/raft.js:418 | with a snapshot not older, the result is the node's own log or the snapshot's, not a splice, if and only if nothing lies behind it or the term at its index agrees |
| RaftBreaks.OldSnapshotBreaksSafety | store/raft.js:413-436 | a run of three nodes in which a snapshot older than the one held arrives: the apply loop passes over what is missing and one command is never applied |
| RaftBreaks.BlindVoteBreaksSafety | store/raft.js:206-221 | a run of three nodes in which votes are given without comparing logs: two nodes apply different commands at index 2 |
| RaftReplies.LateReplies | store/raft.js:296-336 | in every reachable state a leader counts a peer for no more than it has told this leadership, a reply keeps that so if and only if it is a true one, and one to this leadership always is |
| RaftReplies.FreshSafety | store/raft.js:296-336 | State Machine Safety for every run in which receivers check what they can: replies are to the leadership that asked, no append from the beginning reaches a node that compacted its own, no snapshot is old or of another log |
| RaftTermTest.SafeWithoutTermTest | store/raft.js:337-353 | State Machine Safety for every run, late but true replies included, in which leaders count replicas for entries of any term |
| RaftTermTest.TermTestNeverDecides | store/raft.js:337-353 | in every run whose leaders hear replies to their own leadership only, dropping the test for the current term changes no answer to any reply, snapshots and restarts included |
| RaftTermTest.WholeStep | store/raft.js:223-259 | what makes it so: every append of a term reaches past the log with which its leader began, every snapshot sent is committed, and so is or does everything a leader counts a peer for |
| RaftStale.StaleReplyBreaksSafety | store/raft.js:296-307 | a run of five nodes in which a success of term 1 reaches the leader of term 3: two nodes apply different commands at index 3 |
| RaftStale.SecondAck | store/raft.js:340-353 | a leader that believes two of four peers to hold its log commits and applies all of it, whenever those replies were written |
| MvccEvery.RunTracks | store/mvcc.js:221-376 | after any log at all, revocations on wrong key sets included, every uncompacted revision of the store reads as one plain map |
| MvccEvery.RunIntended | store/mvcc.js:346-367 | that is the intended keyspace after every prefix of a log if and only if each revocation finds its lease's key set to be the live keys that carry the lease |
| MvccEvery.ApplyTracks | store/mvcc.js:221-234 | each command gives the plain keyspace's answer, error for error, and its effect; a revocation deletes the keys its lease lists |
| MvccEvery.IntendedIff | store/mvcc.js:221-376 | a single command does what is intended if and only if it is not a revocation that finds a wrong key set |
| MvccRuns.ReadsRefine | store/mvcc.js:82-119 | any range read at any revision, with order, limit, count and keys-only, is answered as from the plain map, compacted and future revisions refused |
| MvccSort.ArrangedIs | store/mvcc.js:503-516 | an answer holds exactly what matched, in strict order: by the target upwards or downwards, and by key among equals, so that a limit cuts off the last ones only |
| MvccRuns.FailedBatchInvisible | store/mvcc.js:239-281 | a batch that throws anywhere leaves every chain, every read at every revision, the events and the revision as before and publishes nothing, however often it wrote a key |
| MvccRuns.WritesSim | store/mvcc.js:239-271 | a batch is one new map or none, with the answers of its operations in order |
| MvccRuns.TxnSim | store/mvcc.js:283-288 | a transaction decides by the newest map and applies one branch |
| MvccRuns.CompactSim | store/mvcc.js:302-329 | compaction changes no view, and refuses targets that are future or not newer |
| MvccRuns.RevokeSim | store/mvcc.js:346-367 | a revocation deletes exactly the live keys on the lease if and only if the lease's key set was right |
| MvccChains.PopAllRestores | store/mvcc.js:273-281 | popping once per event restores every chain, even when one key was written several times |
| MvccChains.KeptReads | store/mvcc.js:311-326 | a cut chain reads the same at the target, later and now, and keeps at most one link at or below the target |
| MvccRefines.MatchingLive | store/mvcc.js:39-48 | filtering all keys ever written and then the live ones lists the same as filtering the live ones |
| Keys.MatchingIsCovered | store/mvcc.js:39-48 | `matchingKeys` lists in order exactly the keys that a watcher's `covers` accepts |
| Keys.IncreasingUnique | store/mvcc.js:40 | a strictly increasing key list is determined by its elements, so a sorted listing is unique |
| MvccCompaction.CompactionTransparent | store/mvcc.js:302-329 | after `applyCompact(t)` every range read at t or later, or of now, answers exactly as before; older ones are refused |
| MvccCompaction.CompactionDrops | store/mvcc.js:311-327 | everything else goes: one link at or below t stays per chain; a key goes exactly when its newest link is a tombstone with nothing after t, and then no readable revision has it; order and compactRevision <= revision are kept |
| MvccCompaction.AfterCuts | store/mvcc.js:327 | trimming the ordered event log cuts exactly the events up to the target |
| MvccHistory.RunRecords | store/mvcc.js:239-271 | over every log the events, in revision order, tell how each revision's view became the newest one, each true when it happened; the stored ones are those after the compaction point |
| MvccHistory.ApplyPublishes | store/mvcc.js:265-269 | what a command publishes is exactly its change of the newest map, all at its new revision |
| MvccHistory.GoneTells | store/mvcc.js:165-183 | a range delete's events remove exactly the listed live keys, each with its last value |
| MvccWatch.WatchDelivers | store/mvcc.js:388-433 | backlog and later batches are every covered event from the start revision on, once and in order, if and only if no covered event was trimmed at the compaction point itself and none is published below a start in the future |
| MvccWatch.WatchExact | store/mvcc.js:388-433 | when a watch is registered: whatever is applied later, it is sent exactly what it is due if and only if it starts no later than the next revision, or covers no key, and no covered event was trimmed at the compaction point itself |
| MvccWatch.ListThenWatch | store/mvcc.js:388-433 | listing a range and replaying a watch from the next revision, however much later it is registered, gives exactly the range as it is now, unless the first revision asked for was compacted |
| MvccWatch.ReplayMine | store/mvcc.js:409-421 | replaying a watcher's share on its share of the map is its share of replaying everything, with or without previous values |
| MvccWatch.TrimmedAtCompaction | store/mvcc.js:327 | a watch at exactly compactRevision is accepted and misses that revision's event |
| MvccWatch.FutureStart | store/mvcc.js:423-431 | a watch from a future revision is sent earlier events all the same |
| MvccLeases.TidyRun | store/mvcc.js:127-183 | over every log in which no transaction fails after its earlier operations have moved a key to another lease and no lease is granted again while it holds keys, each lease's key set is exactly the set of live keys whose newest entry carries it, and the store is the plain keyspace, revocations included |
| MvccLeases.ApplyIndexed | store/mvcc.js:127-376 | every command keeps the lease index exact, ignoreLease, range deletes, keep-alive, compaction and revocation included |
| MvccLeases.RevokeLeases | store/mvcc.js:346-367 | after a revocation the lease is gone, no live key carries it, other keys are as before, and one revision was used exactly if it had keys |
| MvccLeases.FailedBatchLeases | store/mvcc.js:273-281 | a failed batch keeps the index exact if and only if the operations before the first that throws leave every key the lease it has now |
| MvccLeases.WhereItStops | store/mvcc.js:239-264 | which operation throws, and what leases keys carry there, as told from the batch and the store before anything is applied |
| MvccLeases.FailedBatchLeak | store/mvcc.js:149-154 | a concrete failed transaction after which revoking a lease leaves its key alive |
| MvccLeases.SingleUndisturbed | store/mvcc.js:137-144 | a failure of the first operation has touched no lease |
| MvccLeases.GrantLeases | store/mvcc.js:333-337 | a grant keeps the index exact if and only if the id is new or its lease holds no key |
| MvccLeases.SweepClears | store/node.js:222-229 | once a sweep's revocations are applied no expired lease and no live key on one is left, other keys are as before, and each took at most one revision |
| MvccCas.NoLostUpdates | store/mvcc.js:192-216 | in any log at all, of the transactions guarding a key by one modRevision > 0 and writing or deleting it, at most one goes through |
| MvccCas.WinnerMoves | store/mvcc.js:283-288 | a winner found the key at that revision and leaves it newer or deleted |
| MvccEvery.RunWellFormed | store/mvcc.js:221-376 | whatever commands are applied, chains stay ordered, compactRevision <= revision and key sets stay free of repetition |
| MvccEvery.ApplyGrows | store/mvcc.js:297-329 | no command lowers the revision or the compaction point |
| MvccCas.OwnOperandCompares | store/mvcc.js:203-209 | a guard carrying only its own target's operand compares with that operand |
| MvccCas.FilledVersionGuard | store/gateway.js:101-110 | with version always filled in as 0, a guard on a modRevision holds if and only if the key is absent |
| MvccSnapshot.RestoreSnapshot | store/mvcc.js:441-470 | restoring any snapshot of a store, keys and leases listed in any order and values as text, is the identity |
| LogFile.ReadIs | store/wal.js:73-92 | reading the text of any file made of complete, torn and glued appends gives the entries of its whole lines up to the first damaged one |
| LogRecovery.RewriteReads | store/wal.js:97-99 | a rewritten file reads back as its entries |
| LogRecovery.TornReads | store/wal.js:54-92 | after an append cut short by a crash the old entries and the longest complete run of new ones are read |
| LogRecovery.CompleteIs | store/wal.js:73-92 | that run is the longest whose lines fit, the last newline aside |
| LogRecovery.AppendSurvives | store/wal.js:54-68 | a later append is read back after what was there if and only if the file is exactly what writing out its reading would give |
| LogRecovery.AppendLost | store/wal.js:54-92 | an append to any other file is never read back, may take the last entry read with it, and leaves a file that no append mends |
| LogRecovery.VanishingEntry | store/wal.js:85-89 | torn exactly before its newline, an entry is read at restart and lost, with all that follow, to the next append |
| LogRecovery.RunFaithful | store/raft.js:81 | over any run of appends, crashes and rewrites the file reads back as the log in memory at every point if and only if nothing was appended to a torn file |
| ReplicaRuns.ReplicasAgree | store/node.js:26-52 | two replicas at any two moments of a run hold the stores of one command sequence run as far as each has applied, by live apply, restart or snapshot alike; the further one has no lower revision |
| ReplicaRuns.StoreOfIsRun | store/node.js:31 | folding numbered entries is running their commands as a log, the n-th at index n |
| Recovery.CrashRecovery | store/raft.js:64-85 | a single node, crashing between any two file operations: restart and self-election rebuild a leader that has applied the whole log on disk, each entry once; everything acknowledged is in it in order, everything ever applied is a prefix, the revision never goes back |
| TornRecovery.TornCrashRecovery | store/wal.js:54-92 | a single node that may also crash inside an append, after any number of characters: as long as appends find a tidy file, recovery from the text has everything acknowledged in order and everything applied as a prefix |
| TornRecovery.WriteSurvives | store/raft.js:245-259 | the entry a node appends is found by the next restart if and only if its file was tidy; otherwise a restart finds nothing new at all |
| TornRecovery.LifeLost | store/raft.js:64-85 | after a torn append nothing acknowledged from then on is found by a restart, until a snapshot is saved |
| TornRecovery.CutIsTorn | store/wal.js:54-68 | a crash leaves a tidy file untidy if and only if it falls inside the line, newline included |
| Recovery.MovesAreHandlers | store/raft.js:164-259 | the file-by-file moves, run to the end, end exactly where the handlers do |
| RaftNode.SavedRestarts | store/raft.js:472-486 | any node that crashes in the apply loop between saving its snapshot and cutting the log restarts as if it had cut it |
| RaftNode.InstalledRestarts | store/raft.js:413-420 | and so it does between saving a received snapshot and cutting the log |
| Recovery.SavedRestarts | store/raft.js:472-486 | a crash between saving a snapshot and rewriting the log leaves what the rewrite would have left |
| MvccObject.Store.constructor | store/mvcc.js:19-31 | an empty store without watchers |
| MvccObject.Store.EntryAt | store/mvcc.js:53-69 | the scan that stops at the first newer link finds the live entry of a revision |
| MvccObject.Store.ReadRange | store/mvcc.js:82-119 | the range read over the object's fields, errors included |
| MvccObject.Store.PutAt | store/mvcc.js:127-163 | one put: chain, lease move and event, or nothing at all on a missing lease |
| MvccObject.Store.DeleteAt | store/mvcc.js:165-183 | one range delete: a tombstone and an event for every live key covered |
| MvccObject.Store.Rollback | store/mvcc.js:273-281 | the pops and the truncation of a failed batch; leases untouched |
| MvccObject.Store.ApplyWrites | store/mvcc.js:239-271 | the batch, with watchers told exactly what was published and only on success |
| MvccObject.Store.ApplyTxn | store/mvcc.js:283-288 | the guards in order, then one branch |
| MvccObject.Store.ApplyCompact | store/mvcc.js:302-329 | the in-place compaction of every chain |
| MvccObject.Store.KeptOf | store/mvcc.js:311-319 | the upward scan for the newest link at or below the target |
| MvccObject.Store.ApplyLeaseRevoke | store/mvcc.js:346-367 | the deletes of a revocation, in one revision if there were any |
| MvccObject.Store.Apply | store/mvcc.js:221-234 | every command, with its answer, its new state and each watcher's new deliveries |
| MvccObject.Store.Publish | store/mvcc.js:423-433 | every watcher gets its covered events of the batch, and no empty call |
| MvccObject.Store.Watch | store/mvcc.js:388-407 | backlog and subscription in one step, a fresh id, or a refusal that changes nothing |
| MvccObject.Store.Cancel | store/mvcc.js:405 | no later batch reaches the cancelled watcher, and every other watcher is told what it would have been told |
| MvccObject.Store.TakeSnapshot | store/mvcc.js:441-455 | a snapshot of the store, every chain and every lease listed |
| MvccObject.Store.Restore | store/mvcc.js:457-470 | whatever the object held, from a snapshot of any store it becomes that store |
| WalObject.Wal.Append | store/wal.js:54-68 | a tidy file gains exactly the entries; any other gains none, may lose the last one read, and is not mended |
| WalObject.Wal.ReadLog | store/wal.js:73-92 | the read loop gives what the text reads as, whatever the file holds |
| WalObject.Wal.Rewrite | store/wal.js:97-99 | the file holds exactly the entries and is tidy |
| RaftObject.Raft.Start | store/raft.js:64-85 | a new process on the files of an earlier one, torn or not yet cut, is valid and is the restart of that node, its file reading back as its log |
| RaftObject.Raft.Leaves | store/raft.js:472-486 | a node's files are such at any moment, also between saving a snapshot and cutting the log |
| RaftObject.Raft.Append | store/raft.js:245-252 | if the file read back as the log it still does after an append if and only if it was tidy |
| RaftObject.Raft.BecomeFollower | store/raft.js:137-162 | steps down, rejects every waiter, and has a newer term on disk |
| RaftObject.Raft.StartElection | store/raft.js:164-204 | term and vote on disk, then requests to all, or leadership at once in a cluster of one |
| RaftObject.Raft.HandleVote | store/raft.js:206-221 | the vote, on disk before it is answered |
| RaftObject.Raft.OnVoteReply | store/raft.js:188-203 | the tally, stale and newer terms included |
| RaftObject.Raft.BecomeLeader | store/raft.js:223-241 | leadership, fresh indices, and the announcing entry |
| RaftObject.Raft.AppendLocal | store/raft.js:245-259 | the entry in the log file, its waiter, then commit or replication |
| RaftObject.Raft.Propose | store/raft.js:264-272 | only a leader appends |
| RaftObject.Raft.Replicate | store/raft.js:274-330 | to every peer its suffix, or the snapshot, or the next index back to 1 |
| RaftObject.Raft.OnAppendReply | store/raft.js:296-313 | indices raised or backed up, and the commit rule |
| RaftObject.Raft.OnSnapReply | store/raft.js:324-336 | indices set to the snapshot's |
| RaftObject.Raft.AdvanceCommit | store/raft.js:340-353 | the downward scan commits the newest entry of the current term on a quorum |
| RaftObject.Raft.HandleAppend | store/raft.js:355-405 | consistency check, conflict index, merge on disk, commit, answer |
| RaftObject.Raft.HandleSnapshot | store/raft.js:407-424 | files, indices, log and store replaced by the snapshot's |
| RaftObject.Raft.ApplyCommitted | store/raft.js:430-463 | the apply loop: each entry to the store once, its waiter settled, snapshots as they fall due |
| RaftObject.Raft.TakeSnapshot | store/raft.js:472-486 | the saved snapshot restores to the store as it is, and the log is cut to what follows |
| Scheduler.PodRequests | controllers/scheduler.js:45-62 | the larger of the containers' sum and the largest init container |
| Scheduler.RequestsBounds | controllers/scheduler.js:52-61 | never negative, and no less than any single init container |
| Scheduler.UsageByNode | controllers/scheduler.js:79-99 | for every node the sum of the requests of its unfinished pods, and their number |
| Scheduler.UntoleratedTaint | controllers/scheduler.js:129-149 | the first blocking taint that no toleration covers, and none if and only if all are tolerated |
| Scheduler.WhyNot | controllers/scheduler.js:152-185 | the first of the seven reasons that applies, and none if and only if the node suits the pod and still fits it |
| Scheduler.Feasible | controllers/scheduler.js:152-185 | exactly the nodes that suit the pod and have room for it, in the order they were listed |
| Scheduler.ScoreRange | controllers/scheduler.js:189-197 | without preferences a score lies between 0 and 100 |
| Scheduler.PickBest | controllers/scheduler.js:302-304 | no other node scores higher, and none that scores the same comes before it by name |
| SchedulerRuns.CapacityKept | controllers/scheduler.js:274-307 | over any creates, finishes, deletes and atomic schedule steps no node's cpu, memory or pod count exceeds its allocatable |
| SchedulerRuns.LateBinding | controllers/scheduler.js:319-338 | a binding written later keeps a node within capacity if and only if it still has room for the pod then |
| SchedulerRuns.AssignedOnce | controllers/scheduler.js:319-338 | however reads and bindings interleave, and whoever posts them, a pod with a node keeps that node until it is deleted |
| SchedulerRuns.TwoReads | controllers/scheduler.js:288-291 | two decisions may both be read before either is written |
| SchedulerRuns.OverCommitted | controllers/scheduler.js:302-307 | both are then bound and the node has given out twice its cpu |
| SchedulerObject.PodStore.BindPod | controllers/scheduler.js:319-338 | the conditional write assigns a stored pod that has no node, changes nothing else, and says which it was |
| SchedulerObject.PodStore.SchedulePod | controllers/scheduler.js:274-307 | a pod gets a node exactly if some node could take it, then one that no other outscores, and nothing else changes |

## Left out

- RaftSafety.StateMachineSafety: holds for sound deliveries; for replies the condition is exact for a leader's books, delivery by delivery, and a run shows what one false reply can do, but a leader with false books may still happen never to commit on them.
- RaftStale.StaleReplyBreaksSafety: one run of five nodes; no claim is made for other cluster sizes.
- Recovery.CrashRecovery: an append to the log file is taken as all or nothing there, and in the runs of a cluster; TornRecovery.TornCrashRecovery lifts that for a single node.
- RaftTermTest.TermTestNeverDecides: whether the test ever decides after a reply that is late but true is not stated; that dropping it is safe even then is SafeWithoutTermTest.
- RaftObject.Raft.StartElection: the vote counter is the set of peers that granted, as each request's promise settles at most once.
- MvccObject.Store.Restore: live watchers across a restore; the code publishes nothing then.
- MvccLeases.TidyRun: the two guards on the log are needed; FailedBatchLeases and GrantLeases say exactly when they matter.
- MvccWatch.ListThenWatch: its condition is sufficient; after a missed event a later one for the same key may still repair the client's copy.
- MvccSnapshot.RestoreSnapshot: base64 (section 4 of RFC 4648) is any encoding with a left inverse; JSON text itself is not modelled.
- LogFile.ReadIs: JSON lines are any encoding in which lines have no newline, parse back, and neither a proper prefix nor pieces glued together parse.
- Scheduler.WhyNot: reads quantities and labels as given; parsing of quantities and the numbers behind Gt and Lt are parameters.
- SchedulerRuns.CapacityKept: allocatable does not shrink under running pods, and pods are created without a node.
- Timers, jitter, heartbeats as time, and liveness of elections: nondeterministic steps; catch-up is the one progress claim.
- `execute`, `forward` and `waitForLeader` in `store/node.js`: a retry may apply a command twice, so nothing is claimed at that layer.
- `store/transport.js` and the HTTP parts of `store/gateway.js`: the network is the set of messages.
- Number coercions of command fields, and clocks: fields are integers and an expiry arrives in the command.
- Events, conditions and the retry loop of the scheduler; another scheduler's name on a pod.
- `routes/`, `database/`, `objects/`, `middleware/`, the other controllers, DNS, Docker and protobuf code.
