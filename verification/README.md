# Verified models of the 6.5840 labs

Dafny models of the distributed-systems programs in this repository, with proofs of the properties they exist for. To
verify the project, use `dafny verify dfyconfig.toml` in this directory.

**Raft.** `RaftNode` has one pure step for every critical section under `rf.mu`; `RaftServer` is the peer as an object
whose methods update its fields with the loops of the source, each proved to do what the pure step does. `RaftCluster`
is the system of any number of peers over a network that keeps every message ever sent, so that a message may be lost,
delivered late or delivered again; any peer may stop and restart on its disk at any point. Every sequence of steps is
a run. `RaftHistory` records what a run has done (one append-only log per term, the ballots, the acceptances, the
commits), `RaftInvariant`, `RaftKeeps` and `RaftCommit` hold the inductive invariants, and `RaftSafety` and
`RaftCommitIndex` state the theorems about runs alone, without the history. `RaftAnswers` says what each handler
answers and when, on the numbers and the logs. `RaftBacktracking` is the search for the point of agreement,
`RaftRecovery` shows that from every reachable state a cluster can still elect a leader and commit, `RaftCompaction`
is the trimming of the log, and `RaftOutOfOrder` the behaviour outside the hypothesis below.

The AppendEntries handler cuts the follower's log after the entries it was sent even when nothing conflicts
(`src/raft1/raft_append_entries.go:91-92`), so a late, shorter append of the same leader drops acknowledged entries,
and what depends on them fails: in one run of three peers, `RaftStaleCommits.CommittedEntryLost` loses a committed
entry, and `RaftStaleCommits.CommitIndexGoesBack` has a commit index pass its peer's last index and another go back
without a restart. The conditions are these.
- A commit index goes back, other than at a restart, if and only if the peer accepts an append that stops short of its
  commit index while the leader's commit index is larger (`RaftCommitIndex.CommitIndexFallsIff`); it comes to lie
  beyond the last index if and only if the leader's commit index is not larger
  (`RaftCommitIndex.CommitIndexStrandedIff`).
- A committed entry is in the log of every later leader if no peer that acknowledged it later accepts an append of its
  term that stops short of it (`RaftSafety.CommittedEntryStays`). The converse fails because a drop can do no harm: of
  two peers, the one that lost the entry cannot be elected without the vote of the one that has it.
- Committed logs agree if that holds of every committed entry and no accepted append stops short of a commit index
  (`RaftCommitIndex.CommitsAgree`).
- Runs that are `RaftCluster.InOrder` meet all of this: within a term, no peer accepts an append that reaches less far
  than one it accepted before. A run is in order if and only if no peer loses an entry to an append it accepts after
  the first of its term (`RaftOutOfOrder.InOrderIffNothingDropped`).

The other results hold in every run. A candidate that gets an append of its own term accepts it without stepping down;
the proofs cover that. `convertToLeader` itself only tests for the candidate state; that a majority voted in the
current term comes from the order of the ticker's actions, modelled by the flag `won`: the ticker calls
`convertToLeader` right after it receives the win signal, and nothing else starts a campaign in between.

**Key/value server, clerk, lock.** `KvServer` is the versioned server and `KvModel`'s `Init` and `Step`. `Clerks` is
any number of clerks whose requests and replies may be lost. Its runs have a point inside each completed call at which
the call takes effect; `KvModel` accepts the calls on a key in that order exactly when no Put with a nonzero version
was answered while the key did not exist: the server answers `ErrNoKey` then, and `Step` rejects that. `Lock` is the
lock protocol over such clerks, with other traffic on other keys; besides mutual exclusion, undisturbed attempts
finish every call of it. `ClerkLoop` and `LockLoop` are the retry loops of the source and are proved to do what those
systems do.

**Sharding.** `Balance`, `Rebalancing` and `ShardConfig` are the configuration and its greedy balancer. `ShardGroup`
is a group's state machine. `Migration` is ChangeConfigTo with its freeze, install and delete as separate steps, a
controller that may stop after any of them and be re-run from the saved configuration any number of times, and clients
that read and write meanwhile, at any group; `ShardCtrler` is ChangeConfigTo as one method. The results hold for runs
in which every operation that is answered is routed well (`Migration.RightGroup`, a test on the state before the
operation): it is answered by the owner the published configuration names; or it is a Put that takes effect at the
owner to be, once the published owner is frozen, on a key that the published owner does not have; or it changes
nothing and the group has the key as the two owners together do. `ExactRouting` proves that this condition is exact:
an answered operation is routed well if and only if all well routed runs after it give the answers of one key/value
server. `StaleRouting` is an instance of the failure: a client that routes by an older configuration has a Put
acknowledged after the install and before the delete, and a re-run overwrites it.

**MapReduce.** `Coordinator` is the state machine of map and reduce tasks, `Grouping` the partition and the reduce
loop, `MapReduce` any number of workers with timeouts, crashes, duplicate executions and late completions, and
`MapReduceProgress` its way to the end. The output equals that of the sequential program when the reduce function does
not depend on the order of a key's values.

## Model

| member | source | states |
|---|---|---|
| RaftSafety.ElectionSafety | src/raft1/raft_vote.go:36-57 | at most one peer ever leads a term, at any two moments of any run, with crashes and restarts |
| RaftSafety.LogMatching | src/raft1/raft_append_entries.go:56-97 | two logs, even at different moments, that hold the same term at an index are the same through that index |
| RaftSafety.LeaderAppendOnly | src/raft1/raft.go:314-335 | through its term a leader only adds to its log |
| RaftSafety.AcceptedAppendCopiesLeader | src/raft1/raft_append_entries.go:82-97 | an accepted append leaves the follower with exactly the log its leader had at the moment it sent the append |
| RaftSafety.Provenance | src/raft1/raft.go:285-296 | an append in the network was built by a leader at an earlier moment; a reply shows the replier's log of an earlier moment |
| RaftSafety.RestartLosesNothing | src/raft1/raft.go:98-134 | what a restarted peer reads back is the term, vote and log it had in memory when it stopped |
| RaftSafety.RequestsInRange | src/raft1/raft.go:285-294 | in every run a leader's nextIndex for every other peer stays within its log, so no slice is out of range |
| RaftSafety.RepliesInRange | src/raft1/raft_append_entries.go:134-136 | in every run a reply that a leader takes into account makes it read its log within range |
| RaftSafety.MatchIndexStep | src/raft1/raft_append_entries.go:127-143 | a matchIndex stored from a reply is an index through which the follower's log agreed with the leader's; one taken from a rejection lies below every entry of the leader's own term |
| RaftSafety.MatchIndexSound | src/raft1/raft_append_entries.go:72-77 | whatever a leader holds in matchIndex, the follower's log at some moment agreed with the leader's through it |
| RaftSafety.CommittedEntryStays | src/raft1/raft_append_entries.go:145-165 | what a leader commits is in the log of every leader of a later term, if no peer that acknowledged the entry accepts an append of its term that stops short of it |
| RaftSafety.LeaderCompleteness | src/raft1/raft_append_entries.go:145-165 | in every run in order, what a leader commits is in the log of every leader of a later term |
| RaftCommitIndex.CommitIndexFallsIff | src/raft1/raft_append_entries.go:99-102 | in every run a commit index goes back at a step other than a restart if and only if the peer accepts an append that stops short of it while the leader's commit index is larger |
| RaftCommitIndex.CommitIndexStrandedIff | src/raft1/raft_append_entries.go:99-102 | in every run a commit index comes to lie beyond the last index if and only if the peer accepts an append that stops short of it while the leader's commit index is not larger |
| RaftCommitIndex.AlwaysBoundedIff | src/raft1/raft_append_entries.go:99-102 | a peer's commit index stays within its log up to a moment if and only if no step before strands it |
| RaftCommitIndex.CommitsAgree | src/raft1/raft_append_entries.go:99-102 | two commit indexes at any two moments cover equal logs as far as both go, while no accepted append stops short of a commit index and every committed entry is kept by those who acknowledged it |
| RaftCommitIndex.InOrderNeverShort | src/raft1/raft_append_entries.go:82-102 | in a run in order no accepted append stops short of its peer's commit index |
| RaftCommitIndex.CommitAgreement | src/raft1/raft_append_entries.go:99-102 | in every run in order, two commit indexes at any two moments cover equal logs as far as both go, and none exceeds its peer's last index |
| RaftCommitIndex.CommitIndexMonotone | src/raft1/raft_append_entries.go:99-102 | in every run in order a commit index goes back only at a restart |
| RaftOutOfOrder.LaterAppendKeepsLogIff | src/raft1/raft_append_entries.go:82-97 | a peer that accepts a second append of a term keeps its whole log if and only if the append reaches at least as far as that log |
| RaftStaleCommits.CommittedEntryLost | src/raft1/raft_append_entries.go:91-92 | a run of three peers, out of order, in which a committed entry is missing from the log of the next leader, which had acknowledged it |
| RaftOutOfOrder.InOrderIffNothingDropped | src/raft1/raft_append_entries.go:82-97 | a run is in order if and only if no peer loses an entry to an append it accepts after the first of its term |
| RaftStaleCommits.CommitIndexGoesBack | src/raft1/raft_append_entries.go:99-102 | a run of three peers, out of order, in which a commit index passes its peer's last index and another goes back without a restart |
| RaftInvariant.StepKeepsInv | src/raft1/raft_append_entries.go:22-103 | every step of every peer keeps the invariant that each log prefix ending in term t is a prefix of the one log of term t |
| RaftInvariant.Matching | src/raft1/raft_append_entries.go:56-78 | logs backed by the per-term logs match |
| RaftInvariant.FirstOfTerm | src/raft1/raft_vote.go:87-114 | a peer about to take office has a majority of ballots of its term and no one has held that term |
| RaftInvariant.AcceptedLog | src/raft1/raft_append_entries.go:82-97 | the spliced log is the prefix of the term's log that the append reaches |
| RaftInvariant.RejectOk | src/raft1/raft_append_entries.go:48-78 | a rejection changes nothing; its XIndex lies between 1 and PrevLogIndex, and the follower's entries from there to PrevLogIndex have the reported term, which is older than the leader's |
| RaftInvariant.ProgressOk | src/raft1/raft_append_entries.go:127-143 | the new nextIndex is within the leader's log and the new matchIndex is either the old one or an agreement with the follower's log at the reply |
| RaftInvariant.CommitScanOk | src/raft1/raft_append_entries.go:145-165 | the commit scan either leaves the index or moves it to a later entry of no older term that a majority is known to match |
| RaftInvariant.CountIsSize | src/raft1/raft_append_entries.go:151-159 | the counting loop counts exactly the set of other peers whose match index reaches the entry |
| RaftInvariant.VoteOk | src/raft1/raft_vote.go:24-58 | handling a request of its own term keeps the peer's invariant: its vote is on disk, it is the one ballot of that term, and it went to a log at least as up to date |
| RaftInvariant.VoteReplyOk | src/raft1/raft_vote.go:87-114 | handling a reply keeps the vote count within the peers that cast their ballot for the candidate, each counted once, and the win signal to a majority |
| RaftAnswers.UpToDateOrder | src/raft1/raft.go:197-205 | a newer last term wins over any length, any two logs compare, and both ways only if they end alike |
| RaftAnswers.GrantIff | src/raft1/raft_vote.go:24-58 | a vote is granted if and only if the request is not older, the peer has not voted in its term for another, and the candidate's last term is newer or the same with a last index no smaller; and the whole state after it |
| RaftAnswers.VoteCounts | src/raft1/raft_vote.go:97-113 | a granted vote counts in the campaign it was asked in, the win is signalled once more than half have voted, and a newer term ends the campaign |
| RaftAnswers.TimeoutCampaigns | src/raft1/raft.go:227-240 | in every run a peer that times out and does not lead is a candidate of the next term with its own vote, and has asked every other peer |
| RaftAnswers.LeaderStays | src/raft1/raft.go:211-225 | in every run a leader leaves its office only at a restart or for a newer term |
| RaftAnswers.TakesOffice | src/raft1/raft.go:242-260 | a winner leads its term, with every nextIndex after its log and every matchIndex 0 |
| RaftAnswers.StartAppends | src/raft1/raft.go:314-335 | only a leader takes a command; the index returned is its new last index, which holds the command in the term returned; others change nothing |
| RaftAnswers.StartedStays | src/raft1/raft.go:314-335 | in every run the command stays at the index that Start returned while the peer leads that term |
| RaftAnswers.CommitReaches | src/raft1/raft_append_entries.go:99-102 | the append a leader sends is accepted by a peer that has its entry before nextIndex, and brings the leader's commit index as far as the entries reach |
| RaftAnswers.RepliesByTerm | src/raft1/raft_append_entries.go:118-130 | stale replies change nothing, a newer term ends the office, and a success moves the slots of its peer alone |
| RaftAnswers.RejectionTeaches | src/raft1/raft_append_entries.go:131-143 | a rejection that names a term moves the peer's slots to the leader's last entry of that term between the index reported and the index probed, or sets nextIndex to the index reported |
| RaftAnswers.SnapshotAsked | src/raft1/raft_append_entries.go:56-71 | an append that starts below the follower's snapshot, or conflicts at it, makes the leader turn to its snapshot |
| RaftAnswers.CommitsAllItCan | src/raft1/raft_append_entries.go:145-165 | in every run, after a reply of its term a leader has no entry of its term after its commit index that a majority matches, and what it newly commits is such an entry |
| RaftAnswers.SnapshotTakes | src/raft1/raft.go:147-163 | Snapshot keeps exactly the entries from an index within the log on, and does nothing for any other |
| RaftAnswers.BootsAtSnapshot | src/raft1/raft.go:450-495 | a peer starts as a follower with what its disk holds and a commit index at its snapshot |
| RaftRecovery.CanAlwaysCommit | src/raft1/raft_append_entries.go:115-167 | from every reachable state of two or more peers some continuation leaves a leader with a new command last in its log, and every peer with that log and all of it committed |
| RaftRecovery.LonePeerNeverLeads | src/raft1/raft_vote.go:87-134 | one peer alone never becomes leader: only a reply to its vote request signals the win |
| RaftKeeps.Completeness | src/raft1/raft.go:197-205 | if no vote that elected was cast without a committed entry its voter had acknowledged, every reign later than the commit starts with the committed prefix |
| RaftKeeps.UpToDateContains | src/raft1/raft.go:197-205 | a log at least as up to date as one that contains a committed entry contains it too, given that the reigns between do |
| RaftKeeps.StepKeepsTracked | src/raft1/raft_append_entries.go:22-103 | a step that does not cut an acknowledged entry loses it at no peer and in no vote |
| RaftCommit.StepKeepsCovered | src/raft1/raft_append_entries.go:22-167 | a step that does not stop short of the commit index keeps: every commit index, held or sent, is covered by a leader's commit |
| RaftBacktracking.BacktrackingBound | src/raft1/raft_append_entries.go:131-143 | on two fixed logs at most (distinct terms in the follower's log) + 1 appends are rejected |
| RaftBacktracking.HandlersExchange | src/raft1/raft_append_entries.go:48-78 | the two handlers carry out exactly that exchange: same verdict, same next place, which is strictly lower and within the leader's log |
| RaftBacktracking.AcceptanceSettles | src/raft1/raft_append_entries.go:80-97 | when the logs match, the accepted append leaves the follower with exactly the leader's log |
| RaftBacktracking.BacktrackingInEveryRun | src/raft1/raft_append_entries.go:48-143 | from any moment of any run, a leader and a follower of its term that exchange appends end within the bound, with equal logs |
| RaftCompaction.CompactionRefines | src/raft1/raft.go:147-163 | after any interleaving of Start, Snapshot, campaigns, votes, vote replies, taking office, appends that are outdated or do not start below the snapshot and replies to appends, the trimmed peer is the never-trimmed peer trimmed |
| RaftCompaction.SameEntries | src/raft1/raft.go:166-186 | the trimmed log shows the same last index, and the same entries above the snapshot |
| RaftCompaction.SameVotes | src/raft1/raft.go:197-205 | the trimmed peer asks for votes and answers requests for votes as the full one |
| RaftCompaction.SameAppends | src/raft1/raft.go:284-296 | the trimmed peer sends the same appends |
| RaftCompaction.ReceiveTrims | src/raft1/raft_append_entries.go:35-97 | an append that is outdated or does not start below the snapshot, as every append accepted, gets the same verdict on both logs, when accepted the same reply, and the logs stay in step |
| RaftCompaction.ReplyTrims | src/raft1/raft_append_entries.go:127-165 | a reply to an append moves nextIndex, matchIndex and the commit index alike on the trimmed and the full log, unless the leader turns to its snapshot |
| RaftNode.ScanBack | src/raft1/raft_append_entries.go:72-76 | the first index of the run of the conflicting term that ends at the probed index |
| RaftNode.Agreement | src/raft1/raft_append_entries.go:82-87 | how many of the entries sent are in the log already, by term, up to the first difference |
| RaftNode.FindTerm | src/raft1/raft_append_entries.go:134-136 | the leader's last entry of the reported term at or below the probed index |
| RaftServer.Raft.constructor | src/raft1/raft.go:450-495 | the state of a peer that starts or restarts on a given persister |
| RaftServer.Raft.ConvertToCandidate | src/raft1/raft.go:227-240 | the step Campaign on the fields |
| RaftServer.Raft.ConvertToLeader | src/raft1/raft.go:242-260 | the step TakeOffice on the fields, by the loop over the peers |
| RaftServer.Raft.BroadcastRequestVote | src/raft1/raft_vote.go:117-134 | one and the same request to every other peer, with the candidate's term, last index and last term |
| RaftServer.Raft.RequestVote | src/raft1/raft_vote.go:24-58 | the step RequestVote on the fields, with its reply |
| RaftServer.Raft.HandleVoteReply | src/raft1/raft_vote.go:97-113 | the step VoteReplied on the fields |
| RaftServer.Raft.Start | src/raft1/raft.go:314-335 | the step Start on the fields, with the index, term and leadership returned |
| RaftServer.Raft.BroadcastHeartbeat | src/raft1/raft.go:263-300 | to every other peer the append of its nextIndex, or the snapshot when that lies at or below the snapshot index |
| RaftServer.Raft.AppendEntries | src/raft1/raft_append_entries.go:22-103 | the step AppendEntries on the fields, with its reply |
| RaftServer.Raft.MergeEntries | src/raft1/raft_append_entries.go:48-97 | the handler from the consistency check on, error replies included |
| RaftServer.Raft.ReplaceSuffix | src/raft1/raft_append_entries.go:82-102 | the agreement loop, the cut, the append and the commit index |
| RaftServer.Raft.HandleAppendReply | src/raft1/raft_append_entries.go:115-167 | the step AppendReplied on the fields |
| RaftServer.Raft.StoreProgress | src/raft1/raft_append_entries.go:127-143 | the peer's new slots in nextIndex and matchIndex; the other slots stay |
| RaftServer.Raft.AdvanceCommit | src/raft1/raft_append_entries.go:145-165 | the commit scan with its counting loop |
| RaftServer.Raft.Snapshot | src/raft1/raft.go:147-163 | the step Snapshot on the fields |
| KvServer.KVServer.Get | src/kvsrv1/server.go:42-57 | the server's answer to a Get, which changes nothing |
| KvServer.KVServer.Put | src/kvsrv1/server.go:63-86 | the server's answer to a Put and the store after it |
| KvServer.GetAnswers | src/kvsrv1/server.go:42-57 | a Get of a stored key gives its value, version and OK, of any other key ErrNoKey |
| KvServer.PutAnswers | src/kvsrv1/server.go:63-86 | a Put is done if and only if its version is the key's, an absent key having version 0; otherwise nothing changes and the error says whether the key exists |
| Clerks.ServeIsStep | src/models1/kv.go:44-63 | serving an operation is a step of KvModel on its key, unless a Put is answered ErrNoKey, and leaves the other keys alone |
| Clerks.AcceptsOnlyServed | src/models1/kv.go:49-63 | KvModel accepts of a Get only the server's value, and of a Put only the server's error or ErrMaybe, with ErrVersion for the server's ErrNoKey |
| Clerks.Linearizability | src/models1/kv.go:44-63 | in every run different completed calls have different points, each inside its call and with the result it returned, and KvModel accepts the calls on a key in that order if and only if no Put with a nonzero version was answered while the key did not exist |
| Clerks.NoneMissingIff | src/kvsrv1/server.go:69-76 | a Put was answered ErrNoKey if and only if, at some event, one with a nonzero version was answered while its key did not exist |
| Clerks.NoOrderAccepted | src/models1/kv.go:44-63 | when such a Put was answered, KvModel refuses the completed calls in every order |
| Clerks.ModelRejects | src/models1/kv.go:53-59 | a run of two events whose history KvModel rejects |
| Clerks.PutAtMostOnce | src/kvsrv1/client.go:64-83 | a Put takes effect at most once: exactly once for OK, never for ErrVersion or ErrNoKey |
| Clerks.CompletedAnswers | src/kvsrv1/client.go:64-83 | in every run a completed call returns the server's answer to its delivered attempt, except that ErrVersion becomes ErrMaybe exactly for a Put with an earlier attempt that was not delivered |
| Clerks.MaybeHadLoss | src/kvsrv1/client.go:72-77 | in every run a call that returned ErrMaybe had an attempt of its own that was not delivered |
| Clerks.FirstDelivered | src/kvsrv1/client.go:64-83 | in every run a call whose first attempt is delivered returns exactly the server's answer |
| Clerks.EventOk | src/kvsrv1/client.go:32-83 | every call, attempt, lost request and lost reply keeps the invariant behind the two theorems |
| ClerkLoop.Clerk.Get | src/kvsrv1/client.go:32-45 | the loop's result and the store after it, for any losses and any requests of others in between |
| ClerkLoop.Clerk.Put | src/kvsrv1/client.go:64-83 | the loop's result, with the retry flag turning ErrVersion into ErrMaybe, and the store after it |
| ClerkLoop.LoopIsRun | src/kvsrv1/client.go:64-83 | what a loop does is a run of the clerk system: same store, and the completed call has the loop's result |
| Lock.MutualExclusion | src/kvsrv1/lock/lock.go:66-118 | in every run at most one client is between a return of Acquire and its next Release |
| Lock.HolderIsStored | src/kvsrv1/lock/lock.go:75-91 | the server stores the holder's identifier with the holder's ver |
| Lock.OnlyHolderFrees | src/kvsrv1/lock/lock.go:103-116 | the lock state stops being a client's only by an attempt of that client's own Release, which makes it free |
| Lock.ReleaseReturnsFreed | src/kvsrv1/lock/lock.go:98-118 | a client that is outside and in no call does not own the lock |
| Lock.NoFatal | src/kvsrv1/lock/lock.go:73-114 | neither log.Fatal is reached in any run |
| Lock.FreeLockTaken | src/kvsrv1/lock/lock.go:75-81 | from every reachable state two undisturbed delivered attempts take a free lock: the client is inside and its identifier is stored with the next version |
| Lock.AcquireFinishes | src/kvsrv1/lock/lock.go:69-95 | from every place in Acquire, whatever was lost before, four undisturbed attempts take a lock that is free or already the client's own |
| Lock.ReleaseFinishes | src/kvsrv1/lock/lock.go:98-118 | from every place in Release two undisturbed attempts finish it, and a lock it still owned is free at the next version |
| Lock.MakeFinishes | src/kvsrv1/lock/lock.go:28-47 | from every place in MakeLock two undisturbed attempts finish it; a key that exists is left as it is, a new one is free |
| Lock.Turn | src/kvsrv1/lock/lock.go:66-118 | a client outside that calls Acquire on a free lock and then Release, undisturbed, is inside in between, and leaves the lock free two versions on |
| Lock.TryFits | src/kvsrv1/lock/lock.go:28-118 | an attempt keeps the client's relation to the lock state, and changes that state only from free to its own or from its own to free |
| LockLoop.Lock.Make | src/kvsrv1/lock/lock.go:28-47 | MakeLock's loop does what the attempts of the protocol do; undisturbed it returns and the key exists |
| LockLoop.Lock.Acquire | src/kvsrv1/lock/lock.go:66-96 | Acquire's loop does what the attempts of the protocol do, and ends as they end; undisturbed it takes a free lock, keeps its own, waits for another's and stops without the key |
| LockLoop.Lock.Release | src/kvsrv1/lock/lock.go:98-118 | Release's loop does what the attempts of the protocol do; with ver 0 it returns at once; undisturbed it frees a lock it holds |
| LockLoop.CallIsTries | src/kvsrv1/client.go:64-83 | one call of the clerk is the client's attempts up to the call's return |
| Rebalancing.SettleBalances | src/shardkv1/shardcfg/shardcfg.go:140-153 | the move loop ends with every shard in a member group and loads that differ by at most one |
| Rebalancing.MoveLoads | src/shardkv1/shardcfg/shardcfg.go:141-152 | a move takes one from the fullest load and gives one to the emptiest, and the sum of squared loads falls |
| Rebalancing.FewestMoves | src/shardkv1/shardcfg/shardcfg.go:140-153 | the loop changes exactly as many shards as it makes moves, and no balanced assignment over the same groups differs from the start on fewer shards |
| Rebalancing.ReceiverNeverGives | src/shardkv1/shardcfg/shardcfg.go:146-152 | a group that received a shard never gives one away later in the loop |
| Rebalancing.AdoptAssigns | src/shardkv1/shardcfg/shardcfg.go:131-138 | the first loop gives every orphan to a member group and leaves the other shards |
| Rebalancing.JoinIsLocal | src/shardkv1/shardcfg/shardcfg.go:207-213 | from a sound assignment, adding groups moves shards only to the groups added |
| Rebalancing.LeaveIsLocal | src/shardkv1/shardcfg/shardcfg.go:215-221 | from a balanced assignment, removing groups with some left moves only the shards of the groups removed |
| ShardConfig.RebalancedIsBalanced | src/shardkv1/shardcfg/shardcfg.go:122-154 | with groups to serve them, Rebalance leaves every shard assigned and the loads balanced, from any assignment |
| ShardConfig.ShardConfig.Analyze | src/shardkv1/shardcfg/shardcfg.go:80-111 | the fullest and the emptiest group with their loads, ties to the lowest identifier |
| ShardConfig.ShardConfig.Least | src/shardkv1/shardcfg/shardcfg.go:115-118 | the emptiest group |
| ShardConfig.ShardConfig.AdoptOrphans | src/shardkv1/shardcfg/shardcfg.go:131-138 | the loop in place does what Adopt does |
| ShardConfig.ShardConfig.Level | src/shardkv1/shardcfg/shardcfg.go:140-153 | the move loop in place terminates and does what Settle does |
| ShardConfig.ShardConfig.Rebalance | src/shardkv1/shardcfg/shardcfg.go:122-154 | the shards end as Rebalanced says; without groups all are unassigned |
| ShardConfig.ShardConfig.Join | src/shardkv1/shardcfg/shardcfg.go:156-183 | which groups are added, when it is refused halfway and when it is fatal, and the number |
| ShardConfig.ShardConfig.Leave | src/shardkv1/shardcfg/shardcfg.go:185-205 | which groups are removed, when it is refused halfway and when it is fatal, and the number |
| ShardConfig.ShardConfig.JoinBalance | src/shardkv1/shardcfg/shardcfg.go:207-213 | a sound configuration stays sound and shards move only to joining groups |
| ShardConfig.ShardConfig.LeaveBalance | src/shardkv1/shardcfg/shardcfg.go:215-221 | with groups left the configuration ends sound, and from a sound one only shards of leaving groups move |
| ShardGroup.Server.ExecuteFreeze | src/shardkv1/shardgrp/executecmd.go:65-98 | the shard is frozen and its pairs are returned, unless the number is outdated |
| ShardGroup.Server.ExecuteInstall | src/shardkv1/shardgrp/executecmd.go:100-131 | the shard is unfrozen and the given pairs are stored over its own |
| ShardGroup.Server.ExecuteDelete | src/shardkv1/shardgrp/executecmd.go:133-157 | a frozen shard is emptied and stays frozen; an unfrozen one is a panic |
| ShardGroup.Server.ExecutePut | src/shardkv1/shardgrp/executecmd.go:32-63 | the answer and the shard after a Put, which does not look at the frozen flag |
| ShardGroup.Server.ExecuteGet | src/shardkv1/shardgrp/executecmd.go:12-30 | the answer to a Get, which does not look at the frozen flag |
| ShardGroup.Server.Put | src/shardkv1/shardgrp/server.go:106-118 | a frozen shard refuses; otherwise the command is applied |
| ShardGroup.Server.Get | src/shardkv1/shardgrp/server.go:92-104 | a frozen shard refuses; otherwise the command is applied |
| ShardGroup.OutdatedIff | src/shardkv1/shardgrp/executecmd.go:71-78 | after any commands, one of the controller's is refused, and changes nothing, if and only if a larger number was met before |
| ShardGroup.FrozenStands | src/shardkv1/shardgrp/server.go:92-118 | until it is installed or deleted, a frozen shard keeps what FreezeShard returned and refuses every client, whatever else the group is asked |
| ShardGroup.ClientReaches | src/shardkv1/shardgrp/server.go:92-118 | a client's command is served by its shard as by a key/value server and touches no other shard |
| Migration.SameAsOneServer | src/shardkv1/shardctrler/shardctrler.go:64-98 | through changes of configuration, crashes and re-runs, clients get the answers of one key/value server |
| Migration.Conservation | src/shardkv1/shardctrler/shardctrler.go:74-97 | when no change is unfinished, each group holds exactly the shards the published configuration gives it, with every value and version, and nothing of the others |
| Migration.EveryKeyHasAHome | src/shardkv1/shardctrler/shardctrler.go:74-97 | no key is lost: its shard's owner exists, is not frozen for it and holds it |
| Migration.ChangeFinishes | src/shardkv1/shardctrler/shardctrler.go:40-98 | a controller that comes out has left no change unfinished, its last step publishes the new configuration, and DeleteShard never panics |
| Migration.FreezePlaces | src/shardkv1/shardgrp/executecmd.go:65-98 | freezing again at any stage keeps the shard's data at the two groups together and returns what the old group still has |
| Migration.InstallPlaces | src/shardkv1/shardgrp/executecmd.go:100-131 | installing again at any stage leaves the new group with exactly the shard's data |
| Migration.DeletePlaces | src/shardkv1/shardgrp/executecmd.go:133-157 | deleting after an install leaves the data only at the new group, without a panic |
| Migration.AskPlaces | src/shardkv1/shardgrp/server.go:92-118 | a well routed operation gets the single server's answer and keeps every stage of its shard's move |
| Migration.NextOk | src/shardkv1/shardctrler/shardctrler.go:40-98 | every controller step, crash, recovery and well routed operation keeps each shard either untouched or split between its two owners without contradiction |
| ExactRouting.KeepsInvIff | src/shardkv1/client.go:42-69 | an answered operation keeps the invariant if and only if it is well routed |
| ExactRouting.HarmIsSeen | src/shardkv1/shardctrler/shardctrler.go:40-98 | after an answered operation that is not well routed, a read of its key at the published owner, at once or after steps of the controller alone, is answered wrongly, unless the operation itself was |
| ExactRouting.RoutingIsExact | src/shardkv1/client.go:42-69 | an answered operation is well routed if and only if every well routed run after it gives the answers of one key/value server |
| ExactRouting.Rerun | src/shardkv1/shardctrler/shardctrler.go:64-98 | whatever the groups hold, a crash and re-run publishes the saved configuration and puts what the two owners have of a shard together at the new one |
| StaleRouting.StaleRouteLosesUpdate | src/shardkv1/client.go:57-69 | a run in which every operation goes to a group that a published configuration named, and an acknowledged Put is lost by a re-run |
| ShardCtrler.ShardCtrler.ChangeConfigTo | src/shardkv1/shardctrler/shardctrler.go:64-98 | not stopped, the method keeps the invariant and publishes the newer configuration, or waits for ever exactly when a shard must move from or to a group that does not exist |
| ShardCtrler.ShardCtrler.MoveShard | src/shardkv1/shardctrler/shardctrler.go:77-92 | the three calls for one shard succeed and settle it, or one waits for ever exactly when a group is missing |
| MapReduce.SameAsSequential | src/mr/worker.go:139-183 | when the job is done, the output files together hold exactly the sequential program's lines, each in its key's file |
| MapReduce.EachKeyOnce | src/mr/worker.go:163-182 | no key has two lines, in one output file or in two |
| MapReduce.PhaseBarrier | src/mr/coordinator.go:38-80 | a worker has a reduce task, or asks for one, only when every map task is done; and it finds every intermediate file until they are removed |
| MapReduce.CountersRight | src/mr/coordinator.go:91-169 | in every run done1 and done2 count the done tasks, and the job is over exactly when every reduce task is done |
| MapReduce.NeverUndone | src/mr/coordinator.go:117-133 | a done task stays done, whatever times out or is completed late |
| MapReduceProgress.CanAlwaysFinish | src/mr/coordinator.go:117-133 | from every reachable state, whatever tasks were lost, timed out or run twice, some continuation finishes the job |
| MapReduceProgress.GetTaskIsEvents | src/mr/coordinator.go:38-89 | in every run the answer that fits the tasks is what the events of a GetTask call do: TakeMap, PassOn and TakeReduce, or PassOn twice; and when it is to wait no event of the call can happen |
| MapReduceProgress.TakesFit | src/mr/coordinator.go:38-89 | in every run only pending tasks are taken, reduce tasks only with every map task done, and a worker is dismissed only with all done |
| MapReduce.ReduceOk | src/mr/worker.go:158-180 | reducing a whole bucket gives its lines, whatever order the sort leaves among equal keys |
| MapReduce.Sequential | src/main/mrsequential.go:38-87 | the sequential program prints one line for each key of the intermediate data |
| MapReduce.HandleReduceTask | src/mr/worker.go:139-183 | the reduce task's loops over the files of a bucket write exactly that bucket's lines, in ascending order |
| Grouping.Partition | src/mr/worker.go:115-121 | each bucket gets exactly its pairs, in order |
| Grouping.BucketCounts | src/mr/worker.go:115-121 | a pair is in the bucket of its hash as often as it was emitted, and in no other |
| Grouping.BucketInOrder | src/mr/worker.go:115-121 | a bucket keeps the order in which its pairs come |
| Grouping.LessAtFirstDifference | src/mr/worker.go:25-28 | the order of keys is that of the first place where they differ, a proper prefix coming first |
| Grouping.ReduceRuns | src/mr/worker.go:163-180 | the loop with indices i, j and k makes one line for each run of equal keys |
| Grouping.GroupedLines | src/main/mrsequential.go:69-84 | on a sorted slice the lines are exactly those of its keys, in ascending order, each key once |
| Coordinator.Coordinator.GetTask | src/mr/coordinator.go:38-89 | one pass over the tasks gives the one fitting answer: the first pending task of the current phase, which is taken; to wait if the phase has unfinished tasks but none pending; none if all are done |
| Coordinator.OfferedFits | src/mr/coordinator.go:38-89 | with the counters right there is exactly one fitting answer, stated on the states of the tasks alone, and it is the one GetTask gives |
| Coordinator.Coordinator.CompleteTask | src/mr/coordinator.go:91-115 | only a task in progress becomes done and is counted |
| Coordinator.Coordinator.Timer | src/mr/coordinator.go:117-133 | a task still in progress becomes pending again; a done one does not |
| Coordinator.Coordinator.IsDone | src/mr/coordinator.go:159-169 | whether the counter of reduce tasks has reached their number |
| Coordinator.ActionsKeepCount | src/mr/coordinator.go:91-133 | claims, completions and timeouts keep the counters right and undo no task |
| Coordinator.ActionEffects | src/mr/coordinator.go:47-133 | task by task: a claim, a completion and a timeout move the one task they name from the one state they expect, and only a completion counts |
| Coordinator.OverIffAllDone | src/mr/coordinator.go:40-64 | the counters reach their numbers exactly when every task is done |

## Left out

- InstallSnapshot (`src/raft1/raft_install_snapshot.go`): not modelled; it compares a term with an index and overlays a buffer. In the cluster results no peer has a snapshot, and `RaftServer.Raft.BroadcastHeartbeat` only names the peers a snapshot would go to.
- RaftSafety.CommittedEntryStays: asks that the peers that acknowledged the entry keep it, because of the cut at `src/raft1/raft_append_entries.go:91-92`; RaftStaleCommits.CommittedEntryLost is a run that shows it fails otherwise.
- RaftSafety.LeaderCompleteness: its case of a run in order.
- RaftCommitIndex.CommitsAgree: asks the same of every committed entry, and that no accepted append stops short of a commit index, which CommitIndexFallsIff and CommitIndexStrandedIff show to be what moves a commit index wrongly.
- RaftCommitIndex.CommitAgreement: its case of a run in order.
- RaftCommitIndex.CommitIndexMonotone: the case of CommitIndexFallsIff in a run in order; RaftStaleCommits.CommitIndexGoesBack is a run that shows it fails otherwise.
- RaftCompaction.CompactionRefines: says nothing of appends that start below the snapshot, which the trimmed peer rejects and a peer with the whole log may accept, of a rejection that makes the trimmed leader turn to its snapshot, of replies handled while an uncommitted entry is trimmed, or of restarts, which set the commit index to the snapshot's.
- The apply goroutine reads the log outside the lock (`src/raft1/raft.go:425-432`); agreement of committed logs is stated instead.
- Entries of an append in flight share memory with the leader's log in Go; messages are values here.
- persist is called with a nil snapshot by every handler but Snapshot; the snapshot's bytes are not modelled.
- Terms, indexes and versions are unbounded integers; 64-bit wrap-around is not modelled.
- Time: timeouts, sleeps and random intervals are events that may happen at any moment, so what is stated of progress is that a continuation that gets there exists (`RaftRecovery`, `MapReduceProgress`, the last part of `Lock`), not that the timers bring it about. The channels of the ticker are reduced to the flag `won`.
- Retries inside Raft's RPC helpers are covered by messages that may be delivered again; that only one reply reaches a goroutine is kept for votes, where it matters.
- Clerk loops retry for ever; `ClerkLoop` and `LockLoop` stop where the script of the network ends and say so in the result.
- A request that the server handles only after its attempt was given up does not occur in the clerk system: Call waits for the handler unless the server is removed or the client's endpoint is disabled meanwhile (`src/labrpc/labrpc.go:228-236`).
- The clerks of `src/kvraft1` and `src/shardkv1/shardgrp`: their retry flag is set only after a full round of servers, so PutAtMostOnce is not claimed for them.
- `src/kvraft1/rsm`: operations carry only the server's number, so replies cannot be tied to requests; a shard group is taken as one atomic state machine.
- Migration.SameAsOneServer: for well routed runs, which ExactRouting.RoutingIsExact shows to be the exact condition; it takes the check of the frozen flag and the command as one step.
- Migration.Conservation: for well routed runs.
- Migration.EveryKeyHasAHome: for well routed runs.
- Migration.ChangeFinishes: for well routed runs.
- ExactRouting.RoutingIsExact: assumes that every shard has, in the published and in the saved configuration, an owner that exists; a shard that no one can reach shows no harm.
- ShardGroup.Server.Put: checks the frozen flag and applies the command in one step; in the source the command goes through the group's log in between, and a freeze may come first.
- ShardGroup.Server.Get: the same.
- Several controllers at once, and two configurations with the same number.
- A controller whose clerk has no servers to call waits for ever; in `Migration` it makes no progress, and in `ShardCtrler` the method returns false.
- The replies of the configuration store to the controller are taken as given at once; configurations are values, not JSON.
- ShardConfig.ShardConfig.Analyze: for fewer than 257 shards, since the source's running minimum starts at 257; the source has 12.
- MapReduce.SameAsSequential: for reduce functions that do not depend on the order of a key's values, and map functions that give the same pairs at each run, in any order; the sequential program's own sort leaves that order open.
- Temporary files of map and reduce tasks: a file appears in one step when it is complete. Two runs of one task share the temporary name in the source, and their interference is not modelled.
- Coordinator.Coordinator.GetTask: one pass with nothing else going on; the source scans again and again, with other handlers in between, which `MapReduce` models step by step.
- GetTask reads counters and states outside its lock; each such read is a step of its own in `MapReduce`, and data races below that are not modelled.
- Hashing (FNV) is any function of the key; keys are compared as sequences of characters.
- labrpc, labgob, the test code, the daemons and the sample applications.
- log.Fatal and panic are outcomes of a step, not the end of the process.
