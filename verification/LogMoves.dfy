/** What one call can do to a node's log, to a leader's view of its peers, and to the appends and replies it sends. */
module LogMoves {
  import opened Types
  import opened RaftSpec
  import opened NodeSpec
  import opened Electorate
  import opened Regions
  import opened Frames

  /** The node has just become leader. */
  predicate Wins(r: RaftState, a: RaftState) {
    a.role == Leader && !StillLeads(r, a)
  }

  /** A follower of the sender's term has merged the entries of an append that fits. */
  predicate Merges(r: RaftState, a: RaftState, input: Input) {
    && input.Receive? && input.m.AppendEntries? && input.m.term == a.currentTerm && a.role == Follower
    && Consistent(r.log, input.m) && a.log == Merge(r.log, input.m.prevLogIndex + 1, input.m.entries)
  }

  /** The entry a leader adds at the end of its log. */
  function NextEntry(log: Log, term: nat, data: Bytes): Entry {
    Entry(LastLogIndex(log) + 1, term, Command, data)
  }

  /** nextIndex of a peer moves only on a reply of that peer, to just after its index or one back but not below 1. */
  ghost predicate NextMoves(r: RaftState, a: RaftState, input: Input, p: Id) {
    var was, now := Get(r.nextIndex, p), Get(a.nextIndex, p);
    || now == was
    || (input.Receive? && input.m.AppendEntriesResp? && input.m.from == p && input.m.term == r.currentTerm &&
        ((input.m.index > 0 && now == input.m.index + 1) || (was > 1 && now == was - 1)))
  }

  ghost predicate LogSays(r: RaftState, a: RaftState, input: Input, m: Message) {
    && (m.AppendEntries? ==> a.role == Leader && m.to in a.peers && m == HeartbeatFor(a, m.to))
    && (m.AppendEntriesResp? ==>
          && m.term == a.currentTerm
          && (!m.reject ==> Merges(r, a, input) && m.index == LastLogIndex(a.log))
          && (m.reject && m.index > 0 ==>
                && input.Receive? && input.m.AppendEntries? && input.m.term == a.currentTerm
                && !Consistent(r.log, input.m) && m.index == BackoffHint(r.log, input.m)))
  }

  ghost predicate Writes(r: RaftState, a: RaftState, input: Input) {
    && (Wins(r, a) ==>
          && a.log == r.log + [NextEntry(r.log, a.currentTerm, [])]
          && (a.currentTerm > r.currentTerm || r.role == Candidate)
          && forall p :: p in a.peers ==> Get(a.nextIndex, p) == LastLogIndex(r.log) + 1)
    && (StillLeads(r, a) ==>
          && (a.log == r.log || (input.Client? && a.log == r.log + [NextEntry(r.log, r.currentTerm, input.data)]))
          && forall p :: NextMoves(r, a, input, p))
    && (a.role == Candidate ==> a.log == r.log && (a.currentTerm > r.currentTerm || r.role == Candidate))
    && (a.role == Follower ==> a.log == r.log || Merges(r, a, input))
    && forall m :: m in a.msgs ==> LogSays(r, a, input, m)
  }

  lemma AppendsOnly(l: RaftState, r: RaftState, input: Input)
    requires l.msgs == [] && l.role == Leader
    ensures var a := BroadcastHeartbeat(l);
            forall m :: m in a.msgs ==> LogSays(r, a, input, m)
  {
    var a := BroadcastHeartbeat(l);
    forall m | m in a.msgs ensures LogSays(r, a, input, m) {
      var k :| 0 <= k < |a.msgs| && a.msgs[k] == m;
      assert m == HeartbeatFor(l, l.peers[k]) == HeartbeatFor(a, l.peers[k]);
    }
  }

  lemma BecomeLeaderWrites(r: RaftState, v: RaftState, input: Input)
    requires v.log == r.log && v.msgs == [] && r.currentTerm <= v.currentTerm && v.role == Candidate
    requires v.currentTerm == r.currentTerm ==> r.role == Candidate
    ensures Writes(r, BecomeLeader(v), input)
  {
    AppendsOnly(Promote(v), r, input);
  }

  lemma BecomeCandidateWrites(r: RaftState, s: RaftState, draw: nat, input: Input)
    requires s.log == r.log && s.msgs == [] && s.currentTerm == r.currentTerm
    ensures Writes(r, BecomeCandidate(s, draw), input)
  {
    var c := Nominate(s, draw);
    if HasQuorum(c) {
      BecomeLeaderWrites(r, c, input);
    }
  }

  lemma TickWrites(r: RaftState, draw: nat)
    requires r.msgs == []
    ensures Writes(r, Tick(r, draw), Timer)
  {
    if r.role == Leader {
      AppendsOnly(r.(heartbeatElapsed := 0, heartbeatAcked := 1), r, Timer);
    } else {
      BecomeCandidateWrites(r, r.(electionElapsed := 0, leaderActive := false), draw, Timer);
    }
  }

  lemma ProposeWrites(r: RaftState, data: Bytes)
    requires r.msgs == []
    ensures Writes(r, Propose(r, data).0, Client(data))
  {
    if r.role == Leader {
      var e := NextEntry(r.log, r.currentTerm, data);
      AppendsOnly(r.(log := r.log + [e], matchIndex := r.matchIndex[r.id := e.index]), r, Client(data));
    }
  }

  lemma RequestVoteWrites(s: RaftState, m: Message)
    requires m.RequestVote? && s.msgs == []
    ensures Writes(s, HandleRequestVote(s, m), Receive(m))
  {
    if CanGrant(s, m) {
      VoteReplyWrites(s, s.(votedFor := m.from, electionElapsed := 0),
                      RequestVoteResp(s.id, m.from, s.currentTerm, false, false), Receive(m));
    } else {
      var grant := m.isPreVote && !(s.leaderActive && m.term <= s.currentTerm)
                   && m.term >= s.currentTerm && IsLogUpToDate(s.log, m.lastLogIndex, m.lastLogTerm);
      VoteReplyWrites(s, s, RequestVoteResp(s.id, m.from, s.currentTerm, !grant, m.isPreVote), Receive(m));
    }
  }

  lemma VoteReplyWrites(s: RaftState, f: RaftState, reply: Message, input: Input)
    requires f.log == s.log && f.role == s.role && f.currentTerm == s.currentTerm && f.nextIndex == s.nextIndex
    requires s.msgs == f.msgs == [] && reply.RequestVoteResp?
    ensures Writes(s, Send(f, reply), input)
  {
    assert Send(f, reply).msgs == [reply];
  }

  lemma RequestVoteRespWrites(s: RaftState, m: Message, draw: nat)
    requires m.RequestVoteResp? && s.msgs == []
    ensures Writes(s, HandleRequestVoteResp(s, m, draw), Receive(m))
  {
    if s.role == Candidate {
      if m.isPreVote {
        BecomeCandidateWrites(s, s.(preVotes := CountPreVote(s, m)), draw, Receive(m));
      } else {
        BecomeLeaderWrites(s, s.(votes := s.votes[m.from := !m.reject]), Receive(m));
      }
    }
  }

  lemma AppendWrites(s: RaftState, m: Message, draw: nat)
    requires m.AppendEntries? && s.msgs == [] && m.term <= s.currentTerm
    ensures Writes(s, HandleAppendEntries(s, m, draw), Receive(m))
  {
    if m.term == s.currentTerm {
      var f := Recognise(s, m, draw);
      assert f.log == s.log && f.role == Follower && f.currentTerm == s.currentTerm && f.msgs == [];
      AnswerWrites(s, f, m);
    }
  }

  lemma AnswerWrites(s: RaftState, f: RaftState, m: Message)
    requires m.AppendEntries? && f.log == s.log && f.role == Follower && f.currentTerm == m.term && f.msgs == []
    ensures Writes(s, AnswerAppend(f, m), Receive(m))
  {
    if Consistent(f.log, m) {
      AnswerAccepted(f, m);
      var log := Merge(f.log, m.prevLogIndex + 1, m.entries);
      assert AnswerAppend(f, m).msgs == [AppendEntriesResp(f.id, m.from, f.currentTerm, false, LastLogIndex(log))];
    } else {
      assert AnswerAppend(f, m).msgs == [AppendEntriesResp(f.id, m.from, f.currentTerm, true, BackoffHint(f.log, m))];
    }
  }

  lemma AppendRespWrites(s: RaftState, m: Message)
    requires m.AppendEntriesResp? && s.msgs == []
    ensures Writes(s, HandleAppendEntriesResp(s, m), Receive(m))
  {
    AppendRespKeeps(s, m);
    forall p ensures NextMoves(s, HandleAppendEntriesResp(s, m), Receive(m), p) {
      AppendRespNext(s, m, p);
    }
  }

  lemma AppendRespNext(s: RaftState, m: Message, p: Id)
    requires m.AppendEntriesResp?
    ensures NextMoves(s, HandleAppendEntriesResp(s, m), Receive(m), p)
  {
  }

  lemma HandleWrites(s: RaftState, m: Message, draw: nat)
    requires s.msgs == [] && (m.AppendEntries? ==> m.term <= s.currentTerm)
    ensures Writes(s, Handle(s, m, draw), Receive(m))
  {
    match m
    case RequestVote(_, _, _, _, _, _) => RequestVoteWrites(s, m);
    case RequestVoteResp(_, _, _, _, _) => RequestVoteRespWrites(s, m, draw);
    case AppendEntries(_, _, _, _, _, _, _) => AppendWrites(s, m, draw);
    case AppendEntriesResp(_, _, _, _, _) => AppendRespWrites(s, m);
  }

  lemma AdvanceWrites(r: RaftState, input: Input, draw: nat)
    requires r.msgs == []
    ensures Writes(r, Advance(r, input, draw), input)
  {
    match input
    case Timer => TickWrites(r, draw);
    case Client(data) => ProposeWrites(r, data);
    case Receive(m) =>
      StepDownKeeps(r, m, draw);
      var s := StepDown(r, m, draw);
      HandleWrites(s, m, draw);
      SteppedDownWrites(r, s, Handle(s, m, draw), input);
  }

  /** Stepping down first makes no difference to the log. */
  lemma SteppedDownWrites(r: RaftState, s: RaftState, a: RaftState, input: Input)
    requires Writes(s, a, input) && s.log == r.log && r.currentTerm <= s.currentTerm
    requires s == r || (s.currentTerm > r.currentTerm && s.role == Follower)
    ensures Writes(r, a, input)
  {
    forall m | m in a.msgs ensures LogSays(r, a, input, m) { assert LogSays(s, a, input, m); }
  }
}
