# Phalanx in Dafny

A model of the Raft engine of Phalanx and of what it promises. The model has three layers.

- **Specification.** `RaftSpec` gives every step of the Raft state machine as a function on a state of 21 fields:
  ticks, the four message handlers, proposals, the commit scan. `NodeSpec` gives each critical section of a node
  as one function (`Region`): move Raft, apply what is newly committed or register the proposal, save term and
  vote, take the output buffer. `Cluster` gives the runs: any node may take any step at any time, and a message
  once sent stays deliverable, so it may be lost, duplicated, delayed and reordered.
- **Running code.** The classes `RaftNode.Raft`, `Kv.KV`, `Storage.Store` and `NodeServer.Node` update fields in
  place, with the loops of the original, and each method is proved against its specification function.
- **Theorems.** `Invariant` shows that every state of every run without restarts satisfies an invariant relative
  to a history of elections, votes and acknowledgements. The history exists only inside the proofs. `Safety`,
  `CommitScan`, `CatchUp` and `Proposals` draw the theorems about committed entries from it. What survives restarts
  is proved over runs with restarts, by the induction in `Runs`: elections and votes in `Elections`,
  `ElectionMoves`, `Granting`, `ElectionRuns`, `SecondVotes` and `SecondVoteRun`, logs in `LogMoves` and `Logs`,
  clocks in `Timers`. `Voting`, `Answers`, `Commits` and `KnownLeaders` say what each operation does in a state of a
  run, in terms of logs, majorities and messages: when it must act, not only when it may. `StableLeader`, `Pairing`,
  `Keys` and `Storage` stand on their own.

The hard step is leader completeness (`Completeness.LeaderCompleteness`), an induction on terms: a node keeps the
log prefix it acknowledged unless a later leader's log, taken at its election, overrides it. The code needs more
care than the usual argument. A success reply reports the follower's *whole* log (`raft/raft.go:699`), and a
candidate that recognises the winner of its own term forgets its vote (`raft/raft.go:433`). Both are modelled as
they are. The first is sound because a leader sends whole suffixes that end in an entry of its own term. The second
is sound without restarts because the leader it recognised keeps it from voting again.

With restarts that is no longer so, and one vote per term, self-vote included, is false of the code.
`SecondVoteRun.VotesTwice` gives a run of three members in which a node stands in term 1, recognises the winner,
restarts, and grants the vote of term 1 to that winner's old request. The branch that does it is exactly the
step to follower within a term (`SecondVotes.VoteErasedExactly`, `raft/raft.go:643`). A node that stood grants the vote
to another only once the term has had a leader that did not need its vote (`SecondVotes.SecondVoteNeedsWinner`), its
granting replies in a term still name one candidate (`ElectionRuns.OneVotePerTerm`), and no term gets two leaders
(`ElectionRuns.ElectionSafety`).

## Assumptions

- The members of a cluster are fixed, their identities are distinct and not empty, and each node's peer list is
  the others, without repetition. The base election timeout is positive.
- Terms, indices and counters are natural numbers. Where the original computes `nextIndex - 1` on a zero it wraps to
  the largest 64-bit number, and so does `RaftSpec.Pred`; `Logs.NextIndexInRange` shows it never does. Terms
  that reach the database must fit in 64 bits (`NodeServer.Node.Fits`).
- Randomness is a parameter: `draw` is any number below the base timeout, so a timeout is anything from the base to
  below twice the base. Command decoding and entry encoding are parameters too. The encoding must be lossless.
- The network hands a reply to the node that asked, with the identities of the request, as the RPC layer does.
  Requests and replies that belong to a pre-vote may appear out of nowhere, since no node sends any.
- Saving succeeds. The original logs a failed save and goes on.
- Where the original would slice its log past the end, which stops the program, the model leaves the log alone
  (`RaftSpec.Merge`, `RaftSpec.Suffix`). That needs a log whose positions and indices differ; `Logs.LogShape` and
  `Logs.AppendsWellNumbered` show that no run, with or without restarts, has such a log or sends such an append.

The project's documentation describes pre-vote as the gate to every election. The code goes straight to candidacy
when the timer fires (`raft/raft.go:407-412`), and the model follows the code.

## Model

| member | source | states |
|---|---|---|
| `Safety.StateMachineSafety` | raft/raft.go:620-701 | at any two moments of a run without restarts, the entries two nodes have applied are prefixes of one another, and nodes that applied equally many hold equal tables |
| `Completeness.LeaderCompleteness` | raft/raft.go:854-869 | a prefix that a majority acknowledged in a term is in the log of every leader of a later term from its election on |
| `Safety.LeadersHoldCommitted` | raft/raft.go:464-502 | without restarts, what any node has committed is in the log of every leader of a later term, whenever elected, and of its own term from then on |
| `Completeness.QuorumsMeet` | raft/raft.go:831-850 | two majorities of the members share a member |
| `Completeness.RootedAgree` | raft/raft.go:648-686 | logs whose every prefix some leader had agree up to any index where their terms agree |
| `Completeness.ChosenAgree` | raft/raft.go:854-869 | prefixes acknowledged by majorities, in whatever terms, lie on one log |
| `ElectionRuns.ElectionSafety` | raft/raft.go:569-618 | in every run, with any restarts, a term has at most one leader ever |
| `Elections.WinIsFirst` | raft/raft.go:842-850 | a node that becomes leader has a majority of votes in a term nobody has won, although losers may have forgotten theirs |
| `Elections.FinalVoteStays` | raft/raft.go:430-440 | a vote in a term without a winner, or one that made the winner, is not changed by any step |
| `ElectionRuns.DurableBeforeVisible` | node.go:532-536 | in every run, with restarts, the stored pair is the one in memory and nothing a node ever said has a term above it |
| `ElectionRuns.GrantIsSaved` | node.go:393-407 | when a reply that grants a vote appears, that vote is what its sender has stored |
| `ElectionRuns.OneVotePerTerm` | raft/raft.go:508-567 | with any restarts, two replies by which a node grants votes in one term name one candidate |
| `SecondVoteRun.VotesTwice` | node.go:86-109 | there is a run with one restart in which a node stands in a term and later grants that term's vote to another |
| `SecondVotes.RestartMayVoteTwice` | raft/raft.go:643-646 | any run in which a candidate has before it an append and a vote request of its term can go on so that it grants the vote, although it voted for itself |
| `SecondVotes.VoteErasedExactly` | raft/raft.go:643-646 | in every run with restarts, a critical section within a term changes a stored vote if and only if a node that is not a follower takes an append of the term, and then erases it |
| `SecondVotes.SecondVoteNeedsWinner` | raft/raft.go:430-440 | in every run with restarts, a node that stood in a term grants its vote to another only after the term had a leader that did not count the node's vote |
| `SecondVotes.LoserForgets` | raft/raft.go:643-646 | a node that is not a follower and takes an append of its own term stores that it has not voted |
| `SecondVotes.RestartedGrants` | raft/raft.go:508-567 | a node restarted without a saved vote grants one to any candidate of the saved term |
| `Voting.VoteAnswer` | raft/raft.go:508-567 | in every run with restarts, a vote is granted if and only if the request's term is higher, or equal with no active leader and no vote for another, and the candidate's last term and index are not below the voter's; then the sender is the stored vote |
| `Voting.PreVoteAnswer` | raft/raft.go:532-542 | in every run with restarts, a pre-vote request is granted if and only if its term allows it and the log is not behind, and the node stays exactly as it was |
| `Voting.VoteElects` | raft/raft.go:605-618 | in every run with restarts, a vote makes a candidate leader if and only if more than half of the members have now said yes; the new leader has one empty entry of its term, fresh books, and one append out to each peer |
| `Voting.VoteIgnored` | raft/raft.go:569-572 | a late vote, or one to a node that does not stand, changes nothing; one of a higher term makes a follower without vote or leader |
| `Voting.PreVoteElects` | raft/raft.go:574-603 | in every run with restarts, a pre-vote answer makes a candidate stand in a new term if and only if more than half of the members have now said yes to one |
| `KnownLeaders.NamedLeaderLed` | node.go:298-304 | in every run with restarts, the leader a node would send clients to has led the node's term, and only a follower that can name one withholds its vote for a leader |
| `Electorate.AdvanceElectoral` | raft/raft.go:253-297 | what one call can do to term, vote, role and counted votes, and whom its messages speak for, for every state and input |
| `LogMoves.AdvanceWrites` | raft/raft.go:253-297 | what one call can do to the log and to `nextIndex`, and what its appends and replies carry, for every state and input |
| `Logs.LogMatching` | raft/raft.go:648-686 | with any restarts, logs of any two nodes at any two moments that share an index and term are equal up to it |
| `Logs.LogShape` | raft/raft.go:347-367 | with any restarts, entries are numbered by position, terms do not fall along a log, and none is ahead of its node |
| `Logs.NextIndexInRange` | raft/raft.go:757-787 | with any restarts and whatever replies arrive, `nextIndex` is from 1 to one past the end, and an append carries the log from it to the end with the right anchor and the leader's commit index |
| `Logs.AppendsWellNumbered` | raft/raft.go:766-783 | with any restarts, every append ever sent numbers its entries from its anchor |
| `Answers.AppendAnswer` | raft/raft.go:620-701 | in every run with restarts, an append of its own or a later term is accepted if and only if its anchor is in the node's log, and the answer names the end of the log; a refusal keeps the log and carries the hint; a stale append changes nothing |
| `Answers.AnchoredIsAgreeing` | raft/raft.go:648-667 | having the anchor is the same as agreeing with the sender's log through it |
| `Answers.HintMeans` | raft/raft.go:649-667 | the hint is the end of a log that is too short, and otherwise lies just below the run of entries of one term that ends at the conflict |
| `Answers.ReplyTaken` | raft/raft.go:711-735 | a reply of the term makes the next append to its sender start at the reported index or the hint, or one before if there is none, and touches no other peer's books |
| `Answers.ReplyIgnored` | raft/raft.go:703-709 | a late reply, or one to a node that does not lead, changes nothing; one of a higher term makes a follower without vote or leader |
| `Safety.CandidatesVoteForThemselves` | raft/raft.go:442-462 | without restarts, a node that has stood in a term never grants that term's vote to another |
| `Safety.CommittedForever` | raft/raft.go:671-696 | without restarts, applied index, commit index and end of log stay in order, the commit index never falls, and nothing at or below it is ever truncated or changed |
| `Commits.FollowerCommits` | raft/raft.go:688-696 | without restarts, a node that accepts an append ends with the larger of its own commit index and the sender's, so the cap at the last new entry never bites; one that refuses keeps its own |
| `Commits.FollowCommitMeans` | raft/raft.go:688-696 | in any state the new commit index is the old one if the leader is no further, and otherwise the greatest number bounded by the leader's commit index and the last new entry |
| `Commits.CommitFallsExactly` | raft/raft.go:688-696 | the commit index falls if and only if the last new entry lies below it and the leader's commit index above it |
| `Commits.CommittedIsApplied` | node.go:312-333 | without restarts, in every state of every run, the applied index is the commit index and as many entries have been applied |
| `Commits.NothingLeft` | node.go:191-198 | from any state, a tick, an append and the reply to one leave nothing that is committed and in the log unapplied |
| `Safety.SuccessRepliesSound` | raft/raft.go:698-700 | without restarts, the index in a success reply is within the leader's log, and the follower's log is the leader's through it while the follower stays in the term |
| `Safety.MatchIndexSound` | raft/raft.go:725-729 | without restarts, `matchIndex` bounds from below how far a peer in the leader's term agrees with the leader |
| `Safety.TableIsReplay` | node.go:312-333 | without restarts, the table of a node is the replay of its log from the first entry to the applied index, each entry once and in order |
| `Invariant.NextGood` | node.go:191-198 | every step of every node preserves the invariant, with a history that only grows |
| `Invariant.RunGood` | raft/raft.go:264-297 | every state of every run without restarts satisfies the invariant |
| `Invariant.ApplicableExactly` | raft/raft.go:372-391 | with the indices in order, what is handed over is exactly the entries above the applied index up to the commit index |
| `Invariant.FinishEffect` | node.go:191-198 | the rest of a critical section sends the whole buffer, stores term and vote, and keeps the table equal to the replay of what was applied |
| `ReplicationSteps.MergeResult` | raft/raft.go:671-686 | merging a piece of a leader's log that fits leaves the follower's log alone if it already has the piece, and otherwise makes it the leader's up to the end of the piece |
| `CommitScan.CountIsRank` | raft/raft.go:854-869 | at least k numbers reach n if and only if the k-th largest, found by sorting, does |
| `CommitScan.ScanIsOrderStatistic` | raft/raft.go:854-869 | the upward scan commits the quorum-th largest replicated index if it is new and of the current term, and otherwise nothing |
| `CommitScan.CommitOnReply` | raft/raft.go:703-735 | in every run without restarts, a leader that takes a success reply ends with that order statistic, the reported index counted in |
| `CatchUp.CatchUpConverges` | raft/raft.go:703-735 | from any state of a run without restarts, any long enough exchange of appends and replies between leader and peer, whatever is drawn, fails fewer times than `nextIndex`, then succeeds, and ends with equal logs |
| `CatchUp.FailedRound` | raft/raft.go:649-667 | a rejection lowers `nextIndex`, keeps it at least 1, and changes no log |
| `CatchUp.SuccessfulRound` | raft/raft.go:671-686 | a success makes the follower's log the leader's and the leader's books say so |
| `StableLeader.LeaderIsStable` | raft/raft.go:405-424 | with clocks in step, prompt delivery and every follower's timeout above the heartbeat interval, no number of rounds and proposals, whatever is drawn, makes a follower leave the term |
| `StableLeader.TimeoutTooShort` | raft/raft.go:405-424 | the bound is exact: a follower whose timeout does not exceed the interval starts an election before the next heartbeat |
| `Timers.StableInRuns` | raft/raft.go:405-424 | from any state of a run, with any restarts, in which all others follow a leader and have base timeouts above its interval, nobody leaves the term in any number of such rounds |
| `Timers.SteadyInRuns` | raft/raft.go:879-882 | such a state is one that leader stability speaks of, since no drawn timeout is below the base |
| `Timers.AppendSetsClock` | raft/raft.go:635-646 | in every run, a node that takes an append of its own or a later term follows its sender in that term, with its clock at zero |
| `Timers.RunOnTime` | raft/raft.go:879-882 | in every state of every run a timeout is from the base to below twice the base, and a leader's heartbeat clock is below its interval |
| `Timers.TimeoutStands` | raft/raft.go:405-414 | in every run with restarts, a node that does not lead and whose clock reaches its timeout, candidate or not, stands in a new term: its own vote stored, no leader known, one request with the end of its log to each peer, or leader at once if alone; below the timeout only the clock moves |
| `Timers.HeartbeatDue` | raft/raft.go:416-424 | in every run with restarts, a leader sends one append to each peer when its clock reaches the interval, and nothing before |
| `StableLeader.RoundSteady` | raft/raft.go:635-638 | one round of ticks, heartbeats and replies, or one proposal, keeps every follower's clock in step with the leader's and short of its timeout |
| `Pairing.RequestsAnsweredOnce` | raft/raft.go:508-567 | whatever the state, a request produces exactly one message, its own answer, with the node's term |
| `Pairing.NothingDropped` | node.go:440-456 | from an empty buffer, every message a call produces has a route out of the node |
| `Proposals.ProposalAcknowledged` | node.go:231-246 | in every run without restarts, while the proposer leads the term, its ticket is signalled exactly when the index is applied, at most once, and the applied entry is the proposed one |
| `Proposals.ProposalStarts` | raft/raft.go:347-367 | a proposal gets the next index, and its entry and ticket are in place |
| `Proposals.SignalledOnCommit` | node.go:325-329 | without restarts, while the proposer leads the term, the ticket has been signalled if and only if the commit index has reached the proposal |
| `Proposals.ProposalSent` | raft/raft.go:347-367 | in every run with restarts, a leader's proposal goes out to each peer in the same section; at any other node nothing changes |
| `Proposals.SignalsAreUnique` | node.go:325-329 | in every state of a run without restarts, no ticket was signalled twice, and none that waits was signalled |
| `Kv.ReplayLastWriteWins` | fsm/kv.go:60-81 | a key has a value after a replay if and only if some entry decodes to a SET of it and no later entry decodes to a SET or DELETE of the key |
| `Kv.ReplayAppend` | node.go:312-323 | replaying one more entry is applying it to the replay, which malformed, empty and configuration entries leave alone |
| `Kv.KV.Apply` | fsm/kv.go:60-81 | SET binds, DELETE unbinds without an error even if the key was missing, any other operation and data that does not decode leave the table alone with their own errors, empty data without one |
| `Kv.AppliedMeans` | fsm/kv.go:72-79 | the same key by key: a command touches no key but its own |
| `Kv.KV.Get` | fsm/kv.go:84-89 | a value is found if and only if the key is in the table |
| `Keys.BigEndianRoundTrip` | storage/store.go:60-61 | a number within the width comes back from its bytes |
| `Keys.BigEndianOrder` | storage/store.go:109-118 | byte order is numeric order, at any width |
| `Keys.LogKeyOrder` | storage/store.go:113-118 | log keys sort by index and differ for different indices, over all 64-bit indices |
| `Keys.LogKeyLayout` | storage/store.go:113-118 | a log key has ten bytes, the prefix and the index, which can be read back |
| `Keys.SortedUnique` | storage/store.go:147-159 | a set of keys has one ascending enumeration |
| `Storage.HeldIsLoaded` | storage/store.go:139-163 | a log the database holds is what loading returns, in index order, without an error |
| `Storage.CutHolds` | storage/store.go:167-182 | truncating the database at an index is truncating the log it holds |
| `Storage.WrittenHolds` | storage/store.go:122-135 | writing the entries that come next is appending them to the log it holds |
| `Storage.CutKeepsState` | storage/store.go:167-182 | truncating the log leaves the saved term and vote |
| `Storage.WrittenKeepsState` | storage/store.go:122-135 | writing log entries leaves the saved term and vote |
| `Storage.TruncateAndAppend` | storage/store.go:122-182 | truncating and writing a suffix holds what truncating and appending in memory gives |
| `Storage.MergeStored` | raft/raft.go:671-686 | for any log and any received entries, the merged log is held after one truncation and one write of the rest of the entries |
| `Storage.Store.SaveState` | storage/store.go:57-68 | the saved pair reads back for every 64-bit term, and no log entry changes |
| `Storage.Store.LoadState` | storage/store.go:72-107 | the saved term if it has eight bytes and zero otherwise, the saved vote or none |
| `Storage.Store.AppendEntries` | storage/store.go:122-135 | every entry is written under its key, later ones over earlier ones |
| `Storage.Store.LoadLog` | storage/store.go:139-163 | all entries in key order; or an error, exactly when some value is not an entry, with the entries before the first such value |
| `Storage.Store.TruncateFrom` | storage/store.go:167-182 | exactly the log keys not below the index are gone |
| `Storage.Store.MakeKey` | storage/store.go:113-118 | the key of an index, from a buffer filled byte by byte |
| `RaftNode.Raft.constructor` | raft/raft.go:190-235 | a follower with the restored term, vote and log after the sentinel, whatever they are |
| `RaftNode.Raft.Tick` | raft/raft.go:253-260 | the tick of the specification, for any role |
| `RaftNode.Raft.Step` | raft/raft.go:264-297 | the step of the specification, for any message and any state with a sentinel in its log |
| `RaftNode.Raft.ToFollower` | raft/raft.go:430-440 | the step to follower, which clears the vote even within a term |
| `RaftNode.Raft.ToCandidate` | raft/raft.go:442-462 | a new term, its own vote, and requests or, alone, leadership at once |
| `RaftNode.Raft.ToLeader` | raft/raft.go:464-502 | reset books, an empty entry of the new term, and appends to all |
| `RaftNode.Raft.OnRequestVote` | raft/raft.go:508-567 | the grant or refusal of the specification, real and pre-vote |
| `RaftNode.Raft.OnRequestVoteResp` | raft/raft.go:569-618 | the counting of the specification, real and pre-vote |
| `RaftNode.Raft.OnAppendEntries` | raft/raft.go:620-701 | the answer of the specification: stale term, gap, conflict, merge |
| `RaftNode.Raft.MergeEntries` | raft/raft.go:671-686 | the loop over the entries leaves the merge of the specification |
| `RaftNode.Raft.Hint` | raft/raft.go:649-667 | the loop down a conflicting term finds the hint of the specification |
| `RaftNode.Raft.OnAppendEntriesResp` | raft/raft.go:703-735 | the books, back-off and commit of the specification |
| `RaftNode.Raft.AdvanceCommit` | raft/raft.go:854-869 | the scan loop leaves the commit index of the specification |
| `RaftNode.Raft.SendHeartbeats` | raft/raft.go:757-787 | one append per peer, in order, each with its own suffix of the log |
| `RaftNode.Raft.Propose` | raft/raft.go:347-367 | an entry and appends from a leader, an error and no change otherwise |
| `RaftNode.Raft.TakeApplicable` | raft/raft.go:372-391 | the entries of the specification, copied one by one, and the applied index moved |
| `RaftNode.Raft.UpToDate` | raft/raft.go:814-821 | the comparison of last term, then last index |
| `RaftNode.Raft.CountGranted` | raft/raft.go:842-850 | the number of ballots that say yes |
| `NodeServer.Open` | node.go:78-131 | a follower with the saved pair and the loaded log, an empty table and no proposals; or an error, exactly when a log entry does not decode |
| `NodeServer.Node.OnTick` | node.go:192-198 | the critical section of the specification; every message leaves with the stored pair equal to the pair in memory |
| `NodeServer.Node.HandlePropose` | node.go:216-248 | the same for a proposal, with a new ticket on a leader and none elsewhere |
| `NodeServer.Node.HandleAppendEntries` | node.go:339-377 | the same for an append; the answer to this request, already covered by the save, comes back, so the branch without one is never taken |
| `NodeServer.Node.HandleRequestVote` | node.go:379-414 | the same for a vote request |
| `NodeServer.Node.OnAppendResponse` | node.go:477-491 | the same for the reply to an append |
| `NodeServer.Node.OnVoteResponse` | node.go:512-525 | the same for the reply to a vote request, which applies nothing |
| `NodeServer.Node.ApplyCommitted` | node.go:312-333 | the loop over the entries leaves table, waiting proposals and signals as in the specification |
| `NodeServer.Node.PersistState` | node.go:532-536 | the stored pair becomes the pair in memory, and the log the database holds stays |
| `NodeServer.Node.DispatchMessages` | node.go:440-456 | the buffer is emptied and its requests are sent in order |
| `NodeServer.Reopen` | node.go:86-109 | opening the database of a node again gives its term and vote and nothing else: the restart of the runs with restarts |

## Left out

- Committed entries across restarts: no node ever writes its log to the database, so a restart loses it, and every theorem about committed entries is for runs without restarts. The store's own log operations are proved at their interface.
- Dynamic membership: `AddPeer` and `ProposeConfigChange` change the quorum without agreement; entries of that kind are modelled as data that the table ignores.
- Pre-vote as a gate: no node asks for pre-votes; its handlers are modelled and its messages may come from anywhere.
- Reads: `HasLeaderQuorum` counts success replies and not distinct peers, so it does not show that a majority was heard in one round; linearizable reads are not claimed.
- Proposals across a loss of leadership: waiting proposals are found by index alone, so only a proposer that keeps its term gets the guarantee.
- Progress of commits, elections and reads: only catch-up and leader stability are claimed; a lone node never commits, since the scan runs on replies.
- Failures of the database: a failed save, or a database that cannot be opened or read, is not modelled; a log entry that does not decode is.
- 64-bit wrap-around of terms and indices, apart from `nextIndex - 1`.
- Timeouts and cancellation of a waiting client, metrics and logging.
- The entry pool, the transports, gossip discovery, the debug server, the command line, JSON and the database's internals.
- The random generator and its seeding.
- `Snapshot` and `Len` of the table: a copy of the table and its size, for display.
