/**
 What a cluster's past guarantees about its present. A History records the elections won, the real votes
 granted and the highest index each node acknowledged in each term. The cluster itself holds none of this:
 the safety proofs show that for every reachable cluster a matching History exists.
 */
module History {
  import opened Types
  import opened RaftSpec

  /** base is the winner's log when it won; log is what the winner has led since, a no-op first. */
  datatype Election = Election(leader: Id, ballots: map<Id, Log>, base: Log, log: Log)

  datatype Vote = Vote(voter: Id, term: nat, candidate: Id)

  /** A vote maps to the voter's log at the time; an acknowledgement (node, term) to its highest index. */
  datatype History = History(
    elections: map<nat, Election>,
    votes: map<Vote, Log>,
    acks: map<(Id, nat), nat>
  )

  // ---- Logs

  /** Terms never fall along a log. */
  ghost predicate Ascending(log: Log) {
    forall j, k :: 0 <= j <= k < |log| ==> log[j].term <= log[k].term
  }

  /** Every entry got into the log together with the whole prefix that the leader of its term had before it. */
  ghost predicate Rooted(elections: map<nat, Election>, log: Log) {
    && |log| > 0
    && log[0] == SENTINEL
    && forall k {:trigger RootedAt(elections, log, k)} :: 1 <= k < |log| ==> RootedAt(elections, log, k)
  }

  ghost predicate RootedAt(elections: map<nat, Election>, log: Log, k: int)
    requires 0 <= k < |log|
  {
    log[k].term in elections && log[..k + 1] <= elections[log[k].term].log
  }

  /** The last entry of candidate is at least as recent as the last entry of voter. */
  ghost predicate AtLeastAsRecent(candidate: Log, voter: Log) {
    IsLogUpToDate(voter, LastLogIndex(candidate), LastLogTerm(candidate))
  }

  ghost predicate LeaderLogOk(elections: map<nat, Election>, term: nat)
    requires term in elections
  {
    var e := elections[term];
    && 0 < |e.base| < |e.log|
    && e.base <= e.log
    && (forall k :: 0 <= k < |e.base| ==> e.log[k].term < term)
    && (forall k :: |e.base| <= k < |e.log| ==> e.log[k].term == term)
    && Numbered(e.log)
    && Ascending(e.log)
    && Rooted(elections, e.log)
  }

  ghost predicate LeaderLogsOk(elections: map<nat, Election>) {
    forall t {:trigger LeaderLogOk(elections, t)} :: t in elections ==> LeaderLogOk(elections, t)
  }

  // ---- Acknowledgements

  /** Through index n, the log of the leader of the term. */
  ghost function Prefix(h: History, term: nat, n: nat): Log
    requires term in h.elections && n < |h.elections[term].log|
  {
    h.elections[term].log[..n + 1]
  }

  ghost predicate Acked(h: History, v: Id, term: nat, n: nat) {
    (v, term) in h.acks && n <= h.acks[(v, term)]
  }

  ghost predicate AcksOk(h: History) {
    forall v, t: nat :: (v, t) in h.acks ==> t in h.elections && h.acks[(v, t)] < |h.elections[t].log|
  }

  /** Some leader elected after term and before limit started without the prefix through n. */
  ghost predicate Overridden(h: History, term: nat, n: nat, limit: nat)
    requires term in h.elections && n < |h.elections[term].log|
  {
    exists t: nat :: term < t < limit && t in h.elections && !(Prefix(h, term, n) <= h.elections[t].base)
  }

  /** The log holds every prefix that v acknowledged in a term below limit, unless a leader in between lacked it. */
  ghost predicate Keeps(h: History, v: Id, log: Log, limit: nat)
    requires AcksOk(h)
  {
    forall t: nat, n: nat {:trigger Acked(h, v, t, n)} :: t < limit && Acked(h, v, t, n) ==> Prefix(h, t, n) <= log || Overridden(h, t, n, limit)
  }

  // ---- Commitment

  ghost function Quorum(members: set<Id>): nat {
    |members| / 2 + 1
  }

  ghost function AckSet(members: set<Id>, h: History, term: nat, n: nat): set<Id> {
    set v | v in members && Acked(h, v, term, n)
  }

  /** A majority acknowledged an entry of the leader's own term at index n. */
  ghost predicate Chosen(members: set<Id>, h: History, term: nat, n: nat) {
    && term in h.elections
    && |h.elections[term].base| <= n < |h.elections[term].log|
    && |AckSet(members, h, term, n)| >= Quorum(members)
  }

  /** The log through c was chosen in a term no later than limit. */
  ghost predicate CommitOk(members: set<Id>, h: History, limit: nat, log: Log, c: nat) {
    && c < |log|
    && (c == 0 || exists t: nat, n: nat :: t <= limit && Chosen(members, h, t, n) && c <= n && Prefix(h, t, c) <= log)
  }

  // ---- The invariant

  ghost predicate ElectionOk(members: set<Id>, h: History, term: nat)
    requires term in h.elections && AcksOk(h)
  {
    var e := h.elections[term];
    && e.leader in members
    && e.ballots.Keys <= members
    && |e.ballots.Keys| >= Quorum(members)
    && forall v :: v in e.ballots ==>
         && Vote(v, term, e.leader) in h.votes
         && Rooted(h.elections, e.ballots[v])
         && AtLeastAsRecent(e.base, e.ballots[v])
         && Keeps(h, v, e.ballots[v], term)
  }

  ghost predicate VoteOk(members: set<Id>, h: History, b: Vote)
    requires b in h.votes && AcksOk(h)
  {
    && b.voter in members
    && b.candidate in members
    && Rooted(h.elections, h.votes[b])
    && (b.term !in h.elections ==> Keeps(h, b.voter, h.votes[b], b.term))
  }

  ghost predicate OneCandidate(h: History) {
    forall a, b :: a in h.votes && b in h.votes && a.voter == b.voter && a.term == b.term ==> a.candidate == b.candidate
  }

  ghost predicate HistoryOk(members: set<Id>, h: History) {
    && LeaderLogsOk(h.elections)
    && AcksOk(h)
    && (forall t {:trigger ElectionOk(members, h, t)} :: t in h.elections ==> ElectionOk(members, h, t))
    && (forall b {:trigger VoteOk(members, h, b)} :: b in h.votes ==> VoteOk(members, h, b))
    && OneCandidate(h)
  }

  ghost predicate MessageOk(members: set<Id>, h: History, m: Message) {
    match m
    case RequestVote(from, to, term, lastIndex, lastTerm, isPreVote) =>
      !isPreVote ==> from in members && from != to
    case RequestVoteResp(from, to, term, reject, isPreVote) =>
      !isPreVote && !reject ==> Vote(from, term, to) in h.votes
    case AppendEntries(from, to, term, prev, prevTerm, entries, leaderCommit) =>
      AppendOk(members, h, m)
    case AppendEntriesResp(from, to, term, reject, index) =>
      && from in members && to in members && from != to
      && (!reject ==> index > 0 && Acked(h, from, term, index))
      && (reject && index > 0 ==> term in h.elections && index + 1 < |h.elections[term].log|)
  }

  /** An append carries the leader's log from prev to its end at sending time, which is an entry of its own term. */
  ghost predicate Carries(h: History, m: Message)
    requires m.AppendEntries?
  {
    var last := m.prevLogIndex + |m.entries|;
    && m.term in h.elections
    && |h.elections[m.term].base| <= last < |h.elections[m.term].log|
    && m.entries == h.elections[m.term].log[m.prevLogIndex + 1..last + 1]
    && m.prevLogTerm == h.elections[m.term].log[m.prevLogIndex].term
  }

  ghost predicate AppendOk(members: set<Id>, h: History, m: Message)
    requires m.AppendEntries?
  {
    && m.from in members && m.to in members && m.from != m.to
    && Carries(h, m)
    && h.elections[m.term].leader == m.from
    && m.leaderCommit <= m.prevLogIndex + |m.entries|
    && CommitOk(members, h, m.term, h.elections[m.term].log, m.leaderCommit)
  }

  ghost predicate ConfigOk(members: set<Id>, i: Id, r: RaftState) {
    && i in members && i != NONE && r.id == i
    && Distinct(r.peers)
    && Elements(r.peers) == members - {i}
  }

  ghost predicate LogOk(h: History, r: RaftState) {
    && Rooted(h.elections, r.log)
    && (forall k :: 0 <= k < |r.log| ==> r.log[k].term <= r.currentTerm)
  }

  ghost predicate CandidateOk(h: History, i: Id, r: RaftState) {
    r.role == Candidate ==>
      && (forall k :: 0 <= k < |r.log| ==> r.log[k].term < r.currentTerm)
      && (r.currentTerm in h.elections ==> h.elections[r.currentTerm].leader != i)
      && (forall v :: v in r.votes && r.votes[v] ==> Vote(v, r.currentTerm, i) in h.votes)
  }

  ghost predicate LeaderOk(members: set<Id>, h: History, i: Id, r: RaftState) {
    r.role == Leader ==>
      && r.currentTerm in h.elections
      && h.elections[r.currentTerm].leader == i
      && h.elections[r.currentTerm].log == r.log
      && |r.log| > 0 && Acked(h, i, r.currentTerm, |r.log| - 1)
      && (forall p :: p in members && p != i ==>
           && 1 <= Get(r.nextIndex, p) <= |r.log|
           && (Get(r.matchIndex, p) == 0 || Acked(h, p, r.currentTerm, Get(r.matchIndex, p))))
  }

  ghost predicate VotesOk(h: History, i: Id, r: RaftState) {
    && (r.role != Follower ==> r.votedFor == i && Vote(i, r.currentTerm, i) in h.votes)
    && (forall t: nat, c :: Vote(i, t, c) in h.votes ==>
          t <= r.currentTerm && (t == r.currentTerm ==> r.votedFor == c || r.leaderActive))
    && (forall v, t: nat :: Vote(v, t, i) in h.votes ==>
          && t <= r.currentTerm
          && (t == r.currentTerm && r.role == Candidate ==> AtLeastAsRecent(r.log, h.votes[Vote(v, t, i)])))
    && (forall t :: t in h.elections && h.elections[t].leader == i ==> t <= r.currentTerm)
  }

  ghost predicate RequestsOk(net: set<Message>, i: Id, r: RaftState) {
    forall m :: m in net && m.RequestVote? && !m.isPreVote && m.from == i ==>
      && m.term <= r.currentTerm
      && (m.term == r.currentTerm && r.role == Candidate ==>
            m.lastLogIndex == LastLogIndex(r.log) && m.lastLogTerm == LastLogTerm(r.log))
  }

  ghost predicate AckOk(h: History, i: Id, r: RaftState)
    requires AcksOk(h)
  {
    && (forall t :: (i, t) in h.acks ==> t <= r.currentTerm)
    && Keeps(h, i, r.log, r.currentTerm + 1)
  }

  ghost predicate NodeOk(members: set<Id>, h: History, net: set<Message>, i: Id, r: RaftState)
    requires AcksOk(h)
  {
    && ConfigOk(members, i, r)
    && LogOk(h, r)
    && CandidateOk(h, i, r)
    && LeaderOk(members, h, i, r)
    && VotesOk(h, i, r)
    && RequestsOk(net, i, r)
    && AckOk(h, i, r)
    && CommitOk(members, h, r.currentTerm, r.log, r.commitIndex)
    && r.lastApplied <= r.commitIndex
  }

  ghost predicate Inv(nodes: map<Id, RaftState>, net: set<Message>, h: History) {
    && HistoryOk(nodes.Keys, h)
    && (forall i {:trigger NodeOk(nodes.Keys, h, net, i, nodes[i])} :: i in nodes ==> NodeOk(nodes.Keys, h, net, i, nodes[i]))
    && (forall m {:trigger MessageOk(nodes.Keys, h, m)} :: m in net ==> MessageOk(nodes.Keys, h, m))
  }

  // ---- How histories grow

  /** h' remembers all that h does. */
  ghost predicate Le(h: History, h': History) {
    && ElectionsLe(h.elections, h'.elections)
    && (forall b :: b in h.votes ==> b in h'.votes && h'.votes[b] == h.votes[b])
    && (forall a :: a in h.acks ==> a in h'.acks && h.acks[a] <= h'.acks[a])
  }

  ghost predicate ElectionsLe(es: map<nat, Election>, es': map<nat, Election>) {
    forall t :: t in es ==>
      && t in es'
      && es'[t].leader == es[t].leader && es'[t].ballots == es[t].ballots && es'[t].base == es[t].base
      && es[t].log <= es'[t].log
  }

  /**
   h' extends h by things node i did in the given term: votes it granted, its acknowledgement of that term,
   and, if it leads the term, the election or new entries in its log.
   */
  ghost predicate Extends(h: History, h': History, i: Id, term: nat) {
    && Le(h, h')
    && (forall t :: t in h.elections && (t != term || h.elections[t].leader != i) ==> h'.elections[t] == h.elections[t])
    && (forall t :: t in h'.elections && t !in h.elections ==> t == term && h'.elections[t].leader == i)
    && (forall b :: b in h'.votes && b !in h.votes ==> b.voter == i && b.term == term)
    && (forall a :: a in h'.acks && a != (i, term) ==> a in h.acks && h'.acks[a] == h.acks[a])
  }
}
