/**
 The Raft state machine as a function from state to state. Every handler of the node appears here as a
 pure function; the class in RaftNode.dfy computes the same results by updating fields in place.

 A random election timeout is base + draw, where draw is chosen by the environment in [0, base). No
 public operation draws more than once.
 */
module RaftSpec {
  import opened Types

  datatype RaftState = RaftState(
    id: Id,
    peers: seq<Id>,
    currentTerm: nat,
    votedFor: Id,
    log: Log,
    commitIndex: nat,
    lastApplied: nat,
    nextIndex: map<Id, nat>,
    matchIndex: map<Id, nat>,
    role: Role,
    leaderId: Id,
    leaderActive: bool,
    electionElapsed: nat,
    heartbeatElapsed: nat,
    electionTimeout: nat,
    heartbeatTimeout: nat,
    baseElectionTimeout: nat,
    heartbeatAcked: nat,
    votes: map<Id, bool>,
    preVotes: map<Id, bool>,     // empty until the first pre-vote reply arrives
    msgs: seq<Message>           // output buffer
  )

  /** A node built from its configuration and its saved term, vote and log. */
  function NewRaft(id: Id, peers: seq<Id>, base: nat, heartbeat: nat, term: nat, vote: Id, saved: seq<Entry>, draw: nat): RaftState {
    RaftState(id, peers, term, vote, [SENTINEL] + saved, 0, 0, map[], map[], Follower, NONE, false,
              0, 0, base + draw, heartbeat, base, 0, map[], map[], [])
  }

  // ---- Log helpers

  function LastLogIndex(log: Log): nat {
    if log == [] then 0 else log[|log| - 1].index
  }

  function LastLogTerm(log: Log): nat {
    if log == [] then 0 else log[|log| - 1].term
  }

  function LogTerm(log: Log, index: nat): nat {
    if index >= |log| then 0 else log[index].term
  }

  predicate IsLogUpToDate(log: Log, lastIndex: nat, lastTerm: nat) {
    if lastTerm != LastLogTerm(log) then lastTerm > LastLogTerm(log) else lastIndex >= LastLogIndex(log)
  }

  /** Entry k of a log carries index k. */
  predicate Numbered(log: Log) {
    |log| > 0 && forall k :: 0 <= k < |log| ==> log[k].index == k
  }

  // ---- Quorum

  function QuorumSize(s: RaftState): nat {
    (|s.peers| + 1) / 2 + 1
  }

  /** Those recorded as having said yes. */
  function Granted(votes: map<Id, bool>): set<Id> {
    set v | v in votes && votes[v]
  }

  predicate HasQuorum(s: RaftState) {
    |Granted(s.votes)| >= QuorumSize(s)
  }

  // ---- Sending

  function Send(s: RaftState, m: Message): RaftState {
    s.(msgs := s.msgs + [m])
  }

  function VoteRequestFor(s: RaftState, peer: Id): Message {
    RequestVote(s.id, peer, s.currentTerm, LastLogIndex(s.log), LastLogTerm(s.log), false)
  }

  function BroadcastRequestVote(s: RaftState): RaftState {
    s.(msgs := s.msgs + seq(|s.peers|, k requires 0 <= k < |s.peers| => VoteRequestFor(s, s.peers[k])))
  }

  /** Decrement of an unsigned 64-bit integer, which wraps at zero. */
  function Pred(n: nat): nat {
    if n == 0 then MAX_UINT64 else n - 1
  }

  /** The suffix of a log from an index on, empty past the end. */
  function Suffix(log: Log, from: nat): seq<Entry> {
    if from <= LastLogIndex(log) && from <= |log| then log[from..] else []
  }

  function HeartbeatFor(s: RaftState, peer: Id): Message {
    var next := Get(s.nextIndex, peer);
    AppendEntries(s.id, peer, s.currentTerm, Pred(next), LogTerm(s.log, Pred(next)), Suffix(s.log, next), s.commitIndex)
  }

  function BroadcastHeartbeat(s: RaftState): RaftState {
    s.(msgs := s.msgs + seq(|s.peers|, k requires 0 <= k < |s.peers| => HeartbeatFor(s, s.peers[k])))
  }

  // ---- Role changes

  function BecomeFollower(s: RaftState, term: nat, leader: Id, draw: nat): RaftState {
    s.(role := Follower, currentTerm := term, votedFor := NONE, leaderId := leader, leaderActive := leader != NONE,
       electionElapsed := 0, electionTimeout := s.baseElectionTimeout + draw)
  }

  /** The candidate's fields, before it counts its own vote. */
  function Nominate(s: RaftState, draw: nat): RaftState {
    s.(role := Candidate, currentTerm := s.currentTerm + 1, votedFor := s.id, leaderId := NONE,
       votes := map[s.id := true], electionElapsed := 0, electionTimeout := s.baseElectionTimeout + draw)
  }

  function BecomeCandidate(s: RaftState, draw: nat): RaftState {
    var c := Nominate(s, draw);
    if HasQuorum(c) then BecomeLeader(c) else BroadcastRequestVote(c)
  }

  /** The leader's fields, with the no-op of its term appended, before it sends anything. */
  function Promote(s: RaftState): RaftState {
    var last := LastLogIndex(s.log);
    s.(role := Leader, leaderId := s.id, heartbeatElapsed := 0, heartbeatAcked := 1,
       nextIndex := map p | p in s.peers :: last + 1,
       matchIndex := map p | p in s.peers :: 0,
       log := s.log + [Entry(last + 1, s.currentTerm, Command, [])])
  }

  function BecomeLeader(s: RaftState): RaftState {
    BroadcastHeartbeat(Promote(s))
  }

  // ---- Clock

  function Tick(s: RaftState, draw: nat): RaftState {
    if s.role == Leader then TickHeartbeat(s) else TickElection(s, draw)
  }

  function TickElection(s: RaftState, draw: nat): RaftState {
    if s.electionElapsed + 1 >= s.electionTimeout
    then BecomeCandidate(s.(electionElapsed := 0, leaderActive := false), draw)
    else s.(electionElapsed := s.electionElapsed + 1)
  }

  function TickHeartbeat(s: RaftState): RaftState {
    if s.heartbeatElapsed + 1 >= s.heartbeatTimeout
    then BroadcastHeartbeat(s.(heartbeatElapsed := 0, heartbeatAcked := 1))
    else s.(heartbeatElapsed := s.heartbeatElapsed + 1)
  }

  // ---- Messages

  /** A higher term makes the node a follower, unless the message belongs to a pre-vote. */
  function StepDown(s: RaftState, m: Message, draw: nat): RaftState {
    if m.term > s.currentTerm && !((m.RequestVote? || m.RequestVoteResp?) && m.isPreVote)
    then BecomeFollower(s, m.term, if m.AppendEntries? then m.from else NONE, draw)
    else s
  }

  function Step(s: RaftState, m: Message, draw: nat): RaftState {
    Handle(StepDown(s, m, draw), m, draw)
  }

  function Handle(s: RaftState, m: Message, draw: nat): RaftState {
    match m
    case RequestVote(_, _, _, _, _, _) => HandleRequestVote(s, m)
    case RequestVoteResp(_, _, _, _, _) => HandleRequestVoteResp(s, m, draw)
    case AppendEntries(_, _, _, _, _, _, _) => HandleAppendEntries(s, m, draw)
    case AppendEntriesResp(_, _, _, _, _) => HandleAppendEntriesResp(s, m)
  }

  /** Whether a real vote may go to the sender of m. */
  predicate CanGrant(s: RaftState, m: Message)
    requires m.RequestVote?
  {
    && !m.isPreVote
    && !(s.leaderActive && m.term <= s.currentTerm)
    && m.term >= s.currentTerm
    && (s.votedFor == NONE || s.votedFor == m.from)
    && IsLogUpToDate(s.log, m.lastLogIndex, m.lastLogTerm)
  }

  function HandleRequestVote(s: RaftState, m: Message): RaftState
    requires m.RequestVote?
  {
    if s.leaderActive && m.term <= s.currentTerm then
      Send(s, RequestVoteResp(s.id, m.from, s.currentTerm, true, m.isPreVote))
    else if m.isPreVote then
      var grant := m.term >= s.currentTerm && IsLogUpToDate(s.log, m.lastLogIndex, m.lastLogTerm);
      Send(s, RequestVoteResp(s.id, m.from, s.currentTerm, !grant, true))
    else if CanGrant(s, m) then
      Send(s.(votedFor := m.from, electionElapsed := 0), RequestVoteResp(s.id, m.from, s.currentTerm, false, false))
    else
      Send(s, RequestVoteResp(s.id, m.from, s.currentTerm, true, false))
  }

  /** Pre-vote replies seen so far, the node's own included. */
  function CountPreVote(s: RaftState, m: Message): map<Id, bool>
    requires m.RequestVoteResp?
  {
    (if s.preVotes == map[] then map[s.id := true] else s.preVotes)[m.from := !m.reject]
  }

  function HandleRequestVoteResp(s: RaftState, m: Message, draw: nat): RaftState
    requires m.RequestVoteResp?
  {
    if s.role != Candidate then s
    else if m.isPreVote then
      var p := s.(preVotes := CountPreVote(s, m));
      if |Granted(p.preVotes)| >= QuorumSize(p) then BecomeCandidate(p, draw) else p
    else if m.term != s.currentTerm then s
    else
      var v := s.(votes := s.votes[m.from := !m.reject]);
      if HasQuorum(v) then BecomeLeader(v) else v
  }

  /** Entries numbered from just after an index, as every leader sends them. */
  predicate FollowOn(prev: nat, entries: seq<Entry>) {
    forall k :: 0 <= k < |entries| ==> entries[k].index == prev + 1 + k
  }

  predicate WellNumbered(m: Message) {
    m.AppendEntries? ==> FollowOn(m.prevLogIndex, m.entries)
  }

  /** Back from index hint to the first entry of its term t, never below index 1. */
  function ConflictStart(log: Log, hint: nat, t: nat): nat {
    if hint > 1 && LogTerm(log, hint - 1) == t then ConflictStart(log, hint - 1, t) else hint
  }

  /** The log after the entries starting at idx have been merged into it. */
  function Merge(log: Log, idx: nat, entries: seq<Entry>): Log
    decreases |entries|
  {
    if entries == [] then log
    else if idx > LastLogIndex(log) then log + entries
    else if LogTerm(log, idx) != entries[0].term then (if idx <= |log| then log[..idx] else log) + entries
    else Merge(log, idx + 1, entries[1..])
  }

  /** Commit index after an append that ends at lastNew. */
  function FollowCommit(commitIndex: nat, leaderCommit: nat, lastNew: nat): nat {
    if leaderCommit <= commitIndex then commitIndex
    else if leaderCommit < lastNew then leaderCommit
    else lastNew
  }

  /** The node recognises the sender as the leader of its term. */
  function Recognise(s: RaftState, m: Message, draw: nat): RaftState
    requires m.AppendEntries?
  {
    var a := s.(electionElapsed := 0, leaderId := m.from, leaderActive := true);
    if a.role != Follower then BecomeFollower(a, m.term, m.from, draw) else a
  }

  predicate Consistent(log: Log, m: Message)
    requires m.AppendEntries?
  {
    m.prevLogIndex > 0 ==> m.prevLogIndex <= LastLogIndex(log) && LogTerm(log, m.prevLogIndex) == m.prevLogTerm
  }

  /** The index a follower suggests when the consistency check fails. */
  function BackoffHint(log: Log, m: Message): nat
    requires m.AppendEntries?
  {
    if m.prevLogIndex > LastLogIndex(log) then LastLogIndex(log)
    else
      var start := ConflictStart(log, m.prevLogIndex, LogTerm(log, m.prevLogIndex));
      if start == 0 then 0 else start - 1
  }

  /** How a follower answers an append from the leader it recognises. */
  function AnswerAppend(f: RaftState, m: Message): RaftState
    requires m.AppendEntries?
  {
    if !Consistent(f.log, m) then
      Send(f, AppendEntriesResp(f.id, m.from, f.currentTerm, true, BackoffHint(f.log, m)))
    else
      var log := Merge(f.log, m.prevLogIndex + 1, m.entries);
      Send(f.(log := log, commitIndex := FollowCommit(f.commitIndex, m.leaderCommit, m.prevLogIndex + |m.entries|)),
           AppendEntriesResp(f.id, m.from, f.currentTerm, false, LastLogIndex(log)))
  }

  function HandleAppendEntries(s: RaftState, m: Message, draw: nat): RaftState
    requires m.AppendEntries?
  {
    if m.term < s.currentTerm
    then Send(s, AppendEntriesResp(s.id, m.from, s.currentTerm, true, 0))
    else AnswerAppend(Recognise(s, m, draw), m)
  }

  function HandleAppendEntriesResp(s: RaftState, m: Message): RaftState
    requires m.AppendEntriesResp?
  {
    if s.role != Leader || m.term != s.currentTerm then s
    else if m.reject then BackOff(s, m)
    else
      var a := if m.index > 0
               then s.(matchIndex := s.matchIndex[m.from := m.index], nextIndex := s.nextIndex[m.from := m.index + 1])
               else s;
      MaybeAdvanceCommit(a.(heartbeatAcked := a.heartbeatAcked + 1))
  }

  function BackOff(s: RaftState, m: Message): RaftState
    requires m.AppendEntriesResp?
  {
    if m.index > 0 then s.(nextIndex := s.nextIndex[m.from := m.index + 1])
    else if Get(s.nextIndex, m.from) > 1 then s.(nextIndex := s.nextIndex[m.from := Get(s.nextIndex, m.from) - 1])
    else s
  }

  // ---- Commit

  /** How many of the peers have matchIndex at least n. */
  function CountMatches(peers: seq<Id>, matchIndex: map<Id, nat>, n: nat): nat {
    if peers == [] then 0
    else CountMatches(peers[..|peers| - 1], matchIndex, n) + (if Get(matchIndex, peers[|peers| - 1]) >= n then 1 else 0)
  }

  predicate Committable(s: RaftState, n: nat) {
    LogTerm(s.log, n) == s.currentTerm && 1 + CountMatches(s.peers, s.matchIndex, n) >= QuorumSize(s)
  }

  /** The commit index after the scan has looked at indices n and above, starting from best. */
  function ScanCommit(s: RaftState, n: nat, best: nat): nat
    decreases LastLogIndex(s.log) + 1 - n
  {
    if n > LastLogIndex(s.log) then best
    else ScanCommit(s, n + 1, if Committable(s, n) then n else best)
  }

  function MaybeAdvanceCommit(s: RaftState): RaftState {
    s.(commitIndex := ScanCommit(s, s.commitIndex + 1, s.commitIndex))
  }

  // ---- Clients

  function Propose(s: RaftState, data: Bytes): (RaftState, Option<nat>) {
    if s.role != Leader then (s, None)
    else
      var entry := Entry(LastLogIndex(s.log) + 1, s.currentTerm, Command, data);
      (BroadcastHeartbeat(s.(log := s.log + [entry], matchIndex := s.matchIndex[s.id := entry.index])), Some(entry.index))
  }

  /** Committed entries not yet applied, capped at the end of the log. */
  function ApplicableEntries(s: RaftState): (RaftState, seq<Entry>) {
    var end := if s.commitIndex >= |s.log| then Pred(|s.log|) else s.commitIndex;
    if s.lastApplied >= s.commitIndex || s.lastApplied >= end then (s, [])
    else (s.(lastApplied := end), if end < |s.log| then s.log[s.lastApplied + 1..end + 1] else [])
  }
}
