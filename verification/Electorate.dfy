/** What one call to a node can do to its vote, its role and what it says, whatever its log. */
module Electorate {
  import opened Types
  import opened RaftSpec
  import opened NodeSpec
  import opened Regions

  /** The input is a real vote from v for the node in its term. */
  predicate VoteFrom(input: Input, r: RaftState, v: Id) {
    && input.Receive? && input.m.RequestVoteResp? && !input.m.isPreVote && !input.m.reject
    && input.m.from == v && input.m.term == r.currentTerm
  }

  /** Both states lead the same term. */
  predicate StillLeads(r: RaftState, a: RaftState) {
    r.role == Leader && a.role == Leader && a.currentTerm == r.currentTerm
  }

  /** The vote of a term changes only from nothing to a requester, or to nothing when a leader is recognised. */
  ghost predicate VoteMoves(r: RaftState, a: RaftState, input: Input) {
    && (a.currentTerm == r.currentTerm && r.votedFor != NONE && a.votedFor != r.votedFor ==>
          && a.votedFor == NONE && r.role != Follower && a.role == Follower
          && input.Receive? && input.m.AppendEntries? && input.m.term == r.currentTerm)
    && (a.votedFor != NONE && (a.votedFor != r.votedFor || a.currentTerm != r.currentTerm) ==>
          || a.votedFor == r.id
          || (input.Receive? && input.m.RequestVote? && !input.m.isPreVote && input.m.from == a.votedFor))
  }

  /** A new candidate or leader counts its own vote, votes it had counted, and the vote just received. */
  ghost predicate CountMoves(r: RaftState, a: RaftState, input: Input) {
    && (a.role != Follower ==> a.votedFor == r.id)
    && (a.role != Follower && a.currentTerm == r.currentTerm ==> r.role != Follower)
    && (a.role == Candidate && a.currentTerm == r.currentTerm ==> r.role == Candidate)
    && (a.role != Follower && !StillLeads(r, a) ==>
          forall v :: v in Granted(a.votes) ==>
            v == r.id || (a.currentTerm == r.currentTerm && (v in Granted(r.votes) || VoteFrom(input, r, v))))
    && (a.role == Leader && !StillLeads(r, a) ==>
          HasQuorum(a) && (a.currentTerm == r.currentTerm ==> r.role == Candidate))
  }

  ghost predicate Says(a: RaftState, input: Input, m: Message) {
    && m.from == a.id && m.term == a.currentTerm
    && (m.RequestVote? ==> !m.isPreVote && m.to in a.peers)
    && (m.AppendEntries? ==> a.role == Leader && m.to in a.peers)
    && (m.RequestVoteResp? && !m.isPreVote && !m.reject ==>
          && m.to == a.votedFor
          && input.Receive? && input.m.RequestVote? && !input.m.isPreVote && input.m.from == m.to)
  }

  ghost predicate Electoral(r: RaftState, a: RaftState, input: Input) {
    && a.id == r.id && a.peers == r.peers && a.baseElectionTimeout == r.baseElectionTimeout
    && r.currentTerm <= a.currentTerm
    && VoteMoves(r, a, input)
    && CountMoves(r, a, input)
    && forall m :: m in a.msgs ==> Says(a, input, m)
  }

  lemma LeaderSays(l: RaftState, input: Input)
    requires l.msgs == [] && l.role == Leader
    ensures forall m :: m in BroadcastHeartbeat(l).msgs ==> Says(BroadcastHeartbeat(l), input, m)
  {
    HeartbeatsSent(l);
    forall m | m in BroadcastHeartbeat(l).msgs ensures Says(BroadcastHeartbeat(l), input, m) {
      assert m in Elements(BroadcastHeartbeat(l).msgs);
    }
  }

  lemma CandidateSays(c: RaftState, input: Input)
    requires c.msgs == []
    ensures forall m :: m in BroadcastRequestVote(c).msgs ==> Says(BroadcastRequestVote(c), input, m)
  {
    RequestsSent(c);
    forall m | m in BroadcastRequestVote(c).msgs ensures Says(BroadcastRequestVote(c), input, m) {
      assert m in Elements(BroadcastRequestVote(c).msgs);
    }
  }

  lemma BecomeCandidateElectoral(r: RaftState, s: RaftState, draw: nat, input: Input)
    requires s.id == r.id && s.peers == r.peers && s.currentTerm == r.currentTerm && s.msgs == []
    requires s.baseElectionTimeout == r.baseElectionTimeout
    ensures Electoral(r, BecomeCandidate(s, draw), input)
  {
    var c := Nominate(s, draw);
    if HasQuorum(c) {
      LeaderSays(Promote(c), input);
    } else {
      CandidateSays(c, input);
    }
  }

  lemma TickElectoral(r: RaftState, draw: nat)
    requires r.msgs == [] && (r.role != Follower ==> r.votedFor == r.id)
    ensures Electoral(r, Tick(r, draw), Timer)
  {
    if r.role == Leader && r.heartbeatElapsed + 1 >= r.heartbeatTimeout {
      LeaderSays(r.(heartbeatElapsed := 0, heartbeatAcked := 1), Timer);
    } else if r.role != Leader && r.electionElapsed + 1 >= r.electionTimeout {
      BecomeCandidateElectoral(r, r.(electionElapsed := 0, leaderActive := false), draw, Timer);
    }
  }

  lemma ProposeElectoral(r: RaftState, data: Bytes)
    requires r.msgs == [] && (r.role != Follower ==> r.votedFor == r.id)
    ensures Electoral(r, Propose(r, data).0, Client(data))
  {
    if r.role == Leader {
      var e := Entry(LastLogIndex(r.log) + 1, r.currentTerm, Command, data);
      LeaderSays(r.(log := r.log + [e], matchIndex := r.matchIndex[r.id := e.index]), Client(data));
    }
  }

  /** A node that moves to f without promoting itself and then replies. */
  lemma ReplyElectoral(r: RaftState, f: RaftState, reply: Message, input: Input)
    requires f.id == r.id && f.peers == r.peers && f.baseElectionTimeout == r.baseElectionTimeout && f.msgs == []
    requires f.currentTerm == r.currentTerm && f.votes == r.votes
    requires f.role == r.role || f.role == Follower
    requires f.role != Follower ==> f.votedFor == r.id
    requires VoteMoves(r, f, input)
    requires reply.from == r.id && reply.term == f.currentTerm && (reply.RequestVoteResp? || reply.AppendEntriesResp?)
    requires reply.RequestVoteResp? && !reply.isPreVote && !reply.reject ==>
               && reply.to == f.votedFor
               && input.Receive? && input.m.RequestVote? && !input.m.isPreVote && input.m.from == reply.to
    ensures Electoral(r, Send(f, reply), input)
  {
    var a := Send(f, reply);
    assert a.msgs == [reply];
  }

  lemma RequestVoteElectoral(s: RaftState, m: Message)
    requires m.RequestVote? && s.msgs == [] && (s.role != Follower ==> s.votedFor == s.id)
    requires s.id != NONE && (!m.isPreVote ==> m.from != s.id)
    ensures Electoral(s, HandleRequestVote(s, m), Receive(m))
  {
    if CanGrant(s, m) {
      var f := s.(votedFor := m.from, electionElapsed := 0);
      ReplyElectoral(s, f, RequestVoteResp(s.id, m.from, s.currentTerm, false, false), Receive(m));
    } else {
      var grant := m.isPreVote && !(s.leaderActive && m.term <= s.currentTerm)
                   && m.term >= s.currentTerm && IsLogUpToDate(s.log, m.lastLogIndex, m.lastLogTerm);
      ReplyElectoral(s, s, RequestVoteResp(s.id, m.from, s.currentTerm, !grant, m.isPreVote), Receive(m));
    }
  }

  lemma RequestVoteRespElectoral(s: RaftState, m: Message, draw: nat)
    requires m.RequestVoteResp? && s.msgs == [] && (s.role != Follower ==> s.votedFor == s.id)
    ensures Electoral(s, HandleRequestVoteResp(s, m, draw), Receive(m))
  {
    if s.role == Candidate {
      if m.isPreVote {
        BecomeCandidateElectoral(s, s.(preVotes := CountPreVote(s, m)), draw, Receive(m));
      } else if m.term == s.currentTerm {
        var v := s.(votes := s.votes[m.from := !m.reject]);
        LeaderSays(Promote(v), Receive(m));
      }
    }
  }

  lemma AppendElectoral(s: RaftState, m: Message, draw: nat)
    requires m.AppendEntries? && s.msgs == [] && (s.role != Follower ==> s.votedFor == s.id)
    requires m.term <= s.currentTerm
    ensures Electoral(s, HandleAppendEntries(s, m, draw), Receive(m))
  {
    if m.term < s.currentTerm {
      ReplyElectoral(s, s, AppendEntriesResp(s.id, m.from, s.currentTerm, true, 0), Receive(m));
    } else {
      var f := Recognise(s, m, draw);
      if !Consistent(f.log, m) {
        ReplyElectoral(s, f, AppendEntriesResp(f.id, m.from, f.currentTerm, true, BackoffHint(f.log, m)), Receive(m));
      } else {
        var log := Merge(f.log, m.prevLogIndex + 1, m.entries);
        var g := f.(log := log, commitIndex := FollowCommit(f.commitIndex, m.leaderCommit, m.prevLogIndex + |m.entries|));
        ReplyElectoral(s, g, AppendEntriesResp(f.id, m.from, f.currentTerm, false, LastLogIndex(log)), Receive(m));
      }
    }
  }

  lemma AppendRespElectoral(s: RaftState, m: Message)
    requires m.AppendEntriesResp? && s.msgs == [] && (s.role != Follower ==> s.votedFor == s.id)
    ensures Electoral(s, HandleAppendEntriesResp(s, m), Receive(m))
  {
  }

  lemma HandleElectoral(s: RaftState, m: Message, draw: nat)
    requires s.msgs == [] && (s.role != Follower ==> s.votedFor == s.id)
    requires s.id != NONE && (m.RequestVote? && !m.isPreVote ==> m.from != s.id)
    requires m.AppendEntries? ==> m.term <= s.currentTerm
    ensures Electoral(s, Handle(s, m, draw), Receive(m))
  {
    match m
    case RequestVote(_, _, _, _, _, _) => RequestVoteElectoral(s, m);
    case RequestVoteResp(_, _, _, _, _) => RequestVoteRespElectoral(s, m, draw);
    case AppendEntries(_, _, _, _, _, _, _) => AppendElectoral(s, m, draw);
    case AppendEntriesResp(_, _, _, _, _) => AppendRespElectoral(s, m);
  }

  lemma AdvanceElectoral(r: RaftState, input: Input, draw: nat)
    requires r.msgs == [] && r.id != NONE && (r.role != Follower ==> r.votedFor == r.id)
    requires input.Receive? && input.m.RequestVote? && !input.m.isPreVote ==> input.m.from != r.id
    ensures Electoral(r, Advance(r, input, draw), input)
  {
    match input
    case Timer => TickElectoral(r, draw);
    case Client(data) => ProposeElectoral(r, data);
    case Receive(m) =>
      var s := StepDown(r, m, draw);
      HandleElectoral(s, m, draw);
  }
}
