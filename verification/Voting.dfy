/**
 When votes are given and when they elect, in every run with restarts, in terms of what a voter has in its log and
 how many members have said yes.
 */
module Voting {
  import opened Types
  import opened RaftSpec
  import opened Kv
  import opened NodeSpec
  import opened Cluster
  import opened Invariant
  import opened Elections
  import opened ElectionRuns
  import opened Logs

  /** A log that ends at the index with the term is not behind this one: later last term, or same and no shorter. */
  predicate NotBehind(log: Log, index: nat, term: nat)
    requires |log| > 0
  {
    var last := log[|log| - 1].term;
    term > last || (term == last && index >= |log| - 1)
  }

  /** A new term frees the vote; within a term, a known leader or a vote for another binds it. */
  predicate Free(r: RaftState, q: Message)
    requires q.RequestVote?
  {
    || q.term > r.currentTerm
    || (q.term == r.currentTerm && !r.leaderActive && (r.votedFor == NONE || r.votedFor == q.from))
  }

  function Later(a: nat, b: nat): nat {
    if a > b then a else b
  }

  /** What a node between critical sections is like, in any run. */
  lemma AtRest(decode: Decoder, run: seq<State>, k: nat, i: Id)
    requires RunWithRestarts(decode, run) && At(run, k, i)
    ensures var r := RaftOf(run, k, i);
            && r.id == i && i != NONE && r.msgs == [] && run[k].nodes[i].stored == HardState(r.currentTerm, r.votedFor)
            && Numbered(r.log) && LastLogIndex(r.log) == |r.log| - 1
            && Distinct(r.peers) && Elements(r.peers) == run[k].nodes.Keys - {i}
            && |r.peers| + 1 == |run[k].nodes.Keys|
  {
    var ps := RunFair(decode, run);
    assert FairAt(run, ps, k);
    assert VoterSettled(run[k].nodes.Keys, ps[k], i, run[k].nodes[i]);
    LogShape(decode, run, k, i);
    DistinctSize(RaftOf(run, k, i).peers);
  }

  /** A node that a later term has made a follower: no vote, no leader known, a clock at zero and a new timeout. */
  predicate Retires(r: RaftState, a: RaftState, term: nat, draw: nat) {
    && a.role == Follower && a.currentTerm == term && a.log == r.log && a.commitIndex == r.commitIndex
    && a.leaderId == NONE && !a.leaderActive
    && a.electionElapsed == 0 && a.electionTimeout == r.baseElectionTimeout + draw
  }

  /** A node that stays in its term, whatever becomes of its vote. */
  predicate Stays(r: RaftState, a: RaftState) {
    && a.role == r.role && a.currentTerm == r.currentTerm && a.log == r.log && a.commitIndex == r.commitIndex
    && a.leaderId == r.leaderId && a.leaderActive == r.leaderActive && a.electionTimeout == r.electionTimeout
  }

  // ---- Giving

  lemma RequestAnswer(r: RaftState, q: Message, draw: nat)
    requires q.RequestVote? && !q.isPreVote && r.msgs == [] && Numbered(r.log)
    ensures var a := Step(r, q, draw);
            var granted := Free(r, q) && NotBehind(r.log, q.lastLogIndex, q.lastLogTerm);
            && a.msgs == [RequestVoteResp(r.id, q.from, Later(q.term, r.currentTerm), !granted, false)]
            && a.currentTerm == Later(q.term, r.currentTerm)
            && a.votedFor == (if granted then q.from else if q.term > r.currentTerm then NONE else r.votedFor)
            && (if q.term > r.currentTerm then Retires(r, a, q.term, draw) else Stays(r, a))
            && (q.term <= r.currentTerm ==> a.electionElapsed == if granted then 0 else r.electionElapsed)
  {
    var s := StepDown(r, q, draw);
    var granted := Free(r, q) && NotBehind(r.log, q.lastLogIndex, q.lastLogTerm);
    assert if q.term > r.currentTerm then Retires(r, s, q.term, draw) && s.votedFor == NONE && s.msgs == [] && s.id == r.id else s == r;
    assert CanGrant(s, q) <==> granted;
    RequestHandled(s, q);
  }

  lemma RequestHandled(s: RaftState, q: Message)
    requires q.RequestVote? && !q.isPreVote && s.msgs == []
    ensures var a := HandleRequestVote(s, q);
            && a.msgs == [RequestVoteResp(s.id, q.from, s.currentTerm, !CanGrant(s, q), false)] && Stays(s, a)
            && a.votedFor == (if CanGrant(s, q) then q.from else s.votedFor)
            && a.electionElapsed == (if CanGrant(s, q) then 0 else s.electionElapsed)
  {
    var f := if CanGrant(s, q) then s.(votedFor := q.from, electionElapsed := 0) else s;
    var reply := RequestVoteResp(s.id, q.from, s.currentTerm, !CanGrant(s, q), false);
    RequestCases(s, q);
    assert Send(f, reply).msgs == [reply];
  }

  lemma RequestCases(s: RaftState, q: Message)
    requires q.RequestVote? && !q.isPreVote
    ensures var f := if CanGrant(s, q) then s.(votedFor := q.from, electionElapsed := 0) else s;
            HandleRequestVote(s, q) == Send(f, RequestVoteResp(s.id, q.from, s.currentTerm, !CanGrant(s, q), false))
  {
  }

  /**
   A request for a vote is granted exactly when the vote is free and the candidate's log is not behind. Then the
   vote is the candidate's and is stored; otherwise only a newer term leaves a trace.
   */
  lemma VoteAnswer(decode: Decoder, run: seq<State>, k: nat, i: Id, q: Message, draw: nat)
    requires RunWithRestarts(decode, run) && At(run, k, i) && q.RequestVote? && !q.isPreVote
    ensures |RaftOf(run, k, i).log| > 0
    ensures var r := RaftOf(run, k, i);
            var (n, outs) := Region(decode, run[k].nodes[i], Receive(q), draw);
            var granted := Free(r, q) && NotBehind(r.log, q.lastLogIndex, q.lastLogTerm);
            var term := Later(q.term, r.currentTerm);
            && outs == [RequestVoteResp(i, q.from, term, !granted, false)]
            && n.stored == HardState(term, if granted then q.from else if q.term > r.currentTerm then NONE else r.votedFor)
            && (if q.term > r.currentTerm then Retires(r, n.raft, q.term, draw) else Stays(r, n.raft))
            && (q.term <= r.currentTerm ==> n.raft.electionElapsed == if granted then 0 else r.electionElapsed)
            && n.applied == run[k].nodes[i].applied
  {
    AtRest(decode, run, k, i);
    RequestAnswer(RaftOf(run, k, i), q, draw);
    FinishEffect(decode, run[k].nodes[i].(raft := Step(RaftOf(run, k, i), q, draw)), Receive(q));
  }

  /** A request for a pre-vote is answered by the same comparison of logs, and leaves the node as it was. */
  lemma PreVoteAnswer(decode: Decoder, run: seq<State>, k: nat, i: Id, q: Message, draw: nat)
    requires RunWithRestarts(decode, run) && At(run, k, i) && q.RequestVote? && q.isPreVote
    ensures |RaftOf(run, k, i).log| > 0
    ensures var r := RaftOf(run, k, i);
            var granted := NotBehind(r.log, q.lastLogIndex, q.lastLogTerm)
                           && (q.term > r.currentTerm || (q.term == r.currentTerm && !r.leaderActive));
            Region(decode, run[k].nodes[i], Receive(q), draw) ==
              (run[k].nodes[i], [RequestVoteResp(i, q.from, r.currentTerm, !granted, true)])
  {
    AtRest(decode, run, k, i);
    var n := run[k].nodes[i];
    var r := n.raft;
    var granted := NotBehind(r.log, q.lastLogIndex, q.lastLogTerm)
                   && (q.term > r.currentTerm || (q.term == r.currentTerm && !r.leaderActive));
    var a := Step(r, q, draw);
    assert a == Send(r, RequestVoteResp(i, q.from, r.currentTerm, !granted, true));
    assert a.msgs == [RequestVoteResp(i, q.from, r.currentTerm, !granted, true)];
    assert a.(msgs := []) == r;
  }

  // ---- Being elected

  /** Those who have said yes, once one more has answered. */
  function Ayes(votes: map<Id, bool>, m: Message): set<Id>
    requires m.RequestVoteResp?
  {
    if m.reject then Granted(votes) - {m.from} else Granted(votes) + {m.from}
  }

  lemma AyesCounted(votes: map<Id, bool>, m: Message)
    requires m.RequestVoteResp?
    ensures Granted(votes[m.from := !m.reject]) == Ayes(votes, m)
  {
  }

  /** One append to each peer, in order: what the peer lacks by the leader's books, and the leader's commit index. */
  ghost predicate Addresses(r: RaftState, outs: seq<Message>) {
    |outs| == |r.peers| && forall k :: 0 <= k < |outs| ==> outs[k] == HeartbeatFor(r, r.peers[k])
  }

  /** The state and the messages of a node that has just won the term it is in. */
  ghost predicate Elected(r: RaftState, a: RaftState, outs: seq<Message>) {
    && a.role == Leader && a.currentTerm == r.currentTerm && a.votedFor == r.votedFor && a.leaderId == r.id
    && a.log == r.log + [Entry(|r.log|, r.currentTerm, Command, [])] && a.commitIndex == r.commitIndex
    && a.heartbeatElapsed == 0 && a.heartbeatAcked == 1
    && (forall p :: p in r.peers ==> Get(a.nextIndex, p) == |r.log| && Get(a.matchIndex, p) == 0)
    && Addresses(a, outs)
  }

  lemma BecomeLeaderElects(v: RaftState)
    requires v.msgs == [] && Numbered(v.log)
    ensures Elected(v, BecomeLeader(v).(msgs := []), BecomeLeader(v).msgs)
  {
    var a, l := BecomeLeader(v), Promote(v);
    assert a.msgs == seq(|l.peers|, k requires 0 <= k < |l.peers| => HeartbeatFor(l, l.peers[k]));
    forall k | 0 <= k < |a.msgs| ensures a.msgs[k] == HeartbeatFor(a.(msgs := []), l.peers[k]) {
      assert a.msgs[k] == HeartbeatFor(l, l.peers[k]);
    }
  }

  lemma VoteCounted(r: RaftState, m: Message, draw: nat)
    requires m.RequestVoteResp? && !m.isPreVote && m.term == r.currentTerm && r.role == Candidate
    requires r.msgs == [] && Numbered(r.log)
    ensures var a := Step(r, m, draw);
            if 2 * |Ayes(r.votes, m)| > |r.peers| + 1
            then Elected(r, a.(msgs := []), a.msgs)
            else a == r.(votes := a.votes) && Granted(a.votes) == Ayes(r.votes, m)
  {
    AyesCounted(r.votes, m);
    var v := r.(votes := r.votes[m.from := !m.reject]);
    VoteRecorded(r, m, draw);
    if HasQuorum(v) {
      BecomeLeaderElects(v);
      ElectedFrom(v, r, BecomeLeader(v).(msgs := []), BecomeLeader(v).msgs);
    }
  }

  lemma VoteRecorded(r: RaftState, m: Message, draw: nat)
    requires m.RequestVoteResp? && !m.isPreVote && m.term == r.currentTerm && r.role == Candidate
    ensures var v := r.(votes := r.votes[m.from := !m.reject]);
            Step(r, m, draw) == if 2 * |Granted(v.votes)| > |r.peers| + 1 then BecomeLeader(v) else v
  {
  }

  /** Being elected does not depend on which votes were counted. */
  lemma ElectedFrom(v: RaftState, r: RaftState, a: RaftState, outs: seq<Message>)
    requires Elected(v, a, outs) && v == r.(votes := v.votes)
    ensures Elected(r, a, outs)
  {
  }

  /**
   A vote for a candidate in its term elects it exactly when more than half of the members have now said yes.
   Otherwise it is only counted.
   */
  lemma VoteElects(decode: Decoder, run: seq<State>, k: nat, i: Id, m: Message, draw: nat)
    requires RunWithRestarts(decode, run) && At(run, k, i) && m.RequestVoteResp? && !m.isPreVote
    requires RaftOf(run, k, i).role == Candidate && m.term == RaftOf(run, k, i).currentTerm
    ensures var r := RaftOf(run, k, i);
            var (n, outs) := Region(decode, run[k].nodes[i], Receive(m), draw);
            if 2 * |Ayes(r.votes, m)| > |run[k].nodes.Keys| then Elected(r, n.raft, outs)
            else n.raft == r.(votes := n.raft.votes) && Granted(n.raft.votes) == Ayes(r.votes, m) && outs == []
  {
    AtRest(decode, run, k, i);
    VoteCounted(RaftOf(run, k, i), m, draw);
    FinishEffect(decode, run[k].nodes[i].(raft := Step(RaftOf(run, k, i), m, draw)), Receive(m));
  }

  /** A vote that comes too late, or to a node that does not stand, changes nothing; one from a later term ends the bid. */
  lemma VoteIgnored(decode: Decoder, run: seq<State>, k: nat, i: Id, m: Message, draw: nat)
    requires RunWithRestarts(decode, run) && At(run, k, i) && m.RequestVoteResp? && !m.isPreVote
    requires RaftOf(run, k, i).role != Candidate || m.term != RaftOf(run, k, i).currentTerm
    ensures var r := RaftOf(run, k, i);
            var (n, outs) := Region(decode, run[k].nodes[i], Receive(m), draw);
            && outs == []
            && if m.term <= r.currentTerm then n == run[k].nodes[i]
               else n.stored == HardState(m.term, NONE) && Retires(r, n.raft, m.term, draw)
  {
    AtRest(decode, run, k, i);
    var r := RaftOf(run, k, i);
    var a := Step(r, m, draw);
    assert a == StepDown(r, m, draw);
    FinishEffect(decode, run[k].nodes[i].(raft := a), Receive(m));
  }

  // ---- Standing

  /** One request to each peer, in order, for the vote of the node's term, with the end of its log. */
  ghost predicate Asks(r: RaftState, outs: seq<Message>)
    requires |r.log| > 0
  {
    && |outs| == |r.peers|
    && forall k :: 0 <= k < |outs| ==>
         outs[k] == RequestVote(r.id, r.peers[k], r.currentTerm, |r.log| - 1, r.log[|r.log| - 1].term, false)
  }

  /** The state and the messages of a node that has just stood: alone it has won, otherwise it asks. */
  ghost predicate Stands(r: RaftState, a: RaftState, outs: seq<Message>, draw: nat)
    requires |r.log| > 0
  {
    && a.currentTerm == r.currentTerm + 1 && a.votedFor == r.id && Granted(a.votes) == {r.id}
    && a.id == r.id && a.peers == r.peers && a.commitIndex == r.commitIndex && a.leaderActive == r.leaderActive
    && a.electionElapsed == 0 && a.electionTimeout == r.baseElectionTimeout + draw
    && if r.peers == []
       then a.role == Leader && a.leaderId == r.id && a.log == r.log + [Entry(|r.log|, r.currentTerm + 1, Command, [])] && outs == []
       else a.role == Candidate && a.leaderId == NONE && a.log == r.log && Asks(a, outs)
  }

  lemma BecomeCandidateStands(s: RaftState, draw: nat)
    requires s.msgs == [] && Numbered(s.log)
    ensures Stands(s, BecomeCandidate(s, draw).(msgs := []), BecomeCandidate(s, draw).msgs, draw)
  {
    var c := Nominate(s, draw);
    assert Granted(c.votes) == {s.id};
    if s.peers == [] {
      BecomeLeaderElects(c);
    } else {
      BroadcastAsks(c);
    }
  }

  lemma BroadcastAsks(c: RaftState)
    requires c.msgs == [] && Numbered(c.log)
    ensures BroadcastRequestVote(c) == c.(msgs := BroadcastRequestVote(c).msgs) && Asks(c, BroadcastRequestVote(c).msgs)
  {
    var msgs := BroadcastRequestVote(c).msgs;
    assert |msgs| == |c.peers|;
    forall k | 0 <= k < |msgs|
      ensures msgs[k] == RequestVote(c.id, c.peers[k], c.currentTerm, |c.log| - 1, c.log[|c.log| - 1].term, false)
    {
      RequestSays(c, c.peers[k]);
    }
  }

  lemma RequestSays(c: RaftState, p: Id)
    requires Numbered(c.log)
    ensures VoteRequestFor(c, p) == RequestVote(c.id, p, c.currentTerm, |c.log| - 1, c.log[|c.log| - 1].term, false)
  {
  }

  /** Those who have said yes to a pre-vote; a first answer finds the node's own already there. */
  function PreAyes(r: RaftState, m: Message): set<Id>
    requires m.RequestVoteResp?
  {
    Ayes(if r.preVotes == map[] then map[r.id := true] else r.preVotes, m)
  }

  lemma PreVoteCounted(r: RaftState, m: Message, draw: nat)
    requires m.RequestVoteResp? && m.isPreVote && r.role == Candidate && r.msgs == [] && Numbered(r.log)
    ensures var a := Step(r, m, draw);
            && Granted(a.preVotes) == PreAyes(r, m)
            && if 2 * |PreAyes(r, m)| > |r.peers| + 1 then Stands(r, a.(msgs := []), a.msgs, draw)
               else a == r.(preVotes := a.preVotes)
  {
    AyesCounted(if r.preVotes == map[] then map[r.id := true] else r.preVotes, m);
    var p := r.(preVotes := CountPreVote(r, m));
    BecomeCandidateStands(p, draw);
    BecomeCandidateKeepsPreVotes(p, draw);
  }

  lemma BecomeCandidateKeepsPreVotes(p: RaftState, draw: nat)
    ensures BecomeCandidate(p, draw).preVotes == p.preVotes
  {
  }

  /**
   An answer to a pre-vote makes a candidate stand again, in a new term, exactly when more than half of the members
   have now said yes to one; otherwise it is only counted. Nobody else takes notice.
   */
  lemma PreVoteElects(decode: Decoder, run: seq<State>, k: nat, i: Id, m: Message, draw: nat)
    requires RunWithRestarts(decode, run) && At(run, k, i) && m.RequestVoteResp? && m.isPreVote
    ensures |RaftOf(run, k, i).log| > 0
    ensures var r := RaftOf(run, k, i);
            var (n, outs) := Region(decode, run[k].nodes[i], Receive(m), draw);
            if r.role != Candidate then n == run[k].nodes[i] && outs == []
            else if 2 * |PreAyes(r, m)| > |run[k].nodes.Keys| then
              Stands(r, n.raft, outs, draw) && n.stored == HardState(r.currentTerm + 1, i)
            else n.raft == r.(preVotes := n.raft.preVotes) && Granted(n.raft.preVotes) == PreAyes(r, m) && outs == []
  {
    AtRest(decode, run, k, i);
    var r := RaftOf(run, k, i);
    if r.role == Candidate {
      PreVoteCounted(r, m, draw);
    } else {
      assert Step(r, m, draw) == r;
    }
    FinishEffect(decode, run[k].nodes[i].(raft := Step(r, m, draw)), Receive(m));
  }
}
