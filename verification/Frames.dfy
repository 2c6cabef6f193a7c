/** What each operation leaves alone, and what holds of one node whatever it is sent. */
module Frames {
  import opened Types
  import opened RaftSpec
  import opened NodeSpec

  /** The configuration and what has been applied are as they were. */
  predicate SameSetup(r: RaftState, r': RaftState) {
    && r'.id == r.id && r'.peers == r.peers
    && r'.baseElectionTimeout == r.baseElectionTimeout && r'.heartbeatTimeout == r.heartbeatTimeout
    && r'.lastApplied == r.lastApplied
  }

  /** Beyond that, the log may only have grown at its end, and the term risen. */
  predicate Grows(r: RaftState, r': RaftState) {
    && SameSetup(r, r')
    && r.log <= r'.log && r'.commitIndex == r.commitIndex && r.currentTerm <= r'.currentTerm
  }

  lemma BecomeLeaderGrows(s: RaftState)
    ensures var r := BecomeLeader(s);
            Grows(s, r) && r.role == Leader && r.currentTerm == s.currentTerm && r.votedFor == s.votedFor
  {
  }

  lemma BecomeCandidateGrows(s: RaftState, draw: nat)
    ensures var r := BecomeCandidate(s, draw);
            Grows(s, r) && r.role != Follower && r.currentTerm == s.currentTerm + 1 && r.votedFor == s.id
  {
    var c := Nominate(s, draw);
    if HasQuorum(c) {
      BecomeLeaderGrows(c);
    }
  }

  lemma TickGrows(s: RaftState, draw: nat)
    ensures var r := Tick(s, draw);
            && Grows(s, r)
            && (r.currentTerm == s.currentTerm ==> r.role == s.role && r.log == s.log && r.votedFor == s.votedFor)
  {
    if s.role != Leader && s.electionElapsed + 1 >= s.electionTimeout {
      BecomeCandidateGrows(s.(electionElapsed := 0, leaderActive := false), draw);
    }
  }

  lemma ProposeGrows(s: RaftState, data: Bytes)
    ensures var (r, index) := Propose(s, data);
            && Grows(s, r) && r.role == s.role && r.currentTerm == s.currentTerm && r.votedFor == s.votedFor
            && (s.role != Leader ==> r == s && index == None)
            && (s.role == Leader ==>
                  var e := Entry(LastLogIndex(s.log) + 1, s.currentTerm, Command, data);
                  r.log == s.log + [e] && index == Some(e.index))
  {
  }

  lemma RequestVoteGrows(s: RaftState, m: Message)
    requires m.RequestVote?
    ensures var r := HandleRequestVote(s, m);
            Grows(s, r) && r.log == s.log && r.role == s.role && r.currentTerm == s.currentTerm
  {
  }

  lemma RequestVoteRespGrows(s: RaftState, m: Message, draw: nat)
    requires m.RequestVoteResp?
    ensures var r := HandleRequestVoteResp(s, m, draw);
            Grows(s, r) && (s.role != Candidate ==> r == s)
  {
    if s.role == Candidate {
      if m.isPreVote {
        BecomeCandidateGrows(s.(preVotes := CountPreVote(s, m)), draw);
      } else {
        BecomeLeaderGrows(s.(votes := s.votes[m.from := !m.reject]));
      }
    }
  }

  lemma ScanRises(s: RaftState, n: nat, best: nat)
    requires best < n
    ensures ScanCommit(s, n, best) >= best
    decreases LastLogIndex(s.log) + 1 - n
  {
    if n <= LastLogIndex(s.log) {
      ScanRises(s, n + 1, if Committable(s, n) then n else best);
    }
  }

  lemma AppendRespKeeps(s: RaftState, m: Message)
    requires m.AppendEntriesResp?
    ensures var r := HandleAppendEntriesResp(s, m);
            && SameSetup(s, r) && r.log == s.log && r.commitIndex >= s.commitIndex
            && r.role == s.role && r.currentTerm == s.currentTerm && r.votedFor == s.votedFor
            && r.msgs == s.msgs
  {
    if s.role == Leader && m.term == s.currentTerm && !m.reject {
      var a := if m.index > 0
               then s.(matchIndex := s.matchIndex[m.from := m.index], nextIndex := s.nextIndex[m.from := m.index + 1])
               else s;
      MaybeAdvanceKeeps(a.(heartbeatAcked := a.heartbeatAcked + 1));
    }
  }

  lemma MaybeAdvanceKeeps(s: RaftState)
    ensures var r := MaybeAdvanceCommit(s);
            && SameSetup(s, r) && r.log == s.log && r.commitIndex >= s.commitIndex
            && r.role == s.role && r.currentTerm == s.currentTerm && r.votedFor == s.votedFor
            && r.msgs == s.msgs
  {
    ScanRises(s, s.commitIndex + 1, s.commitIndex);
  }

  lemma RecogniseKeeps(s: RaftState, m: Message, draw: nat)
    requires m.AppendEntries?
    ensures var f := Recognise(s, m, draw);
            && SameSetup(s, f) && f.log == s.log && f.commitIndex == s.commitIndex
            && f.role == Follower && f.msgs == s.msgs && f.electionElapsed == 0
            && f.currentTerm == (if s.role == Follower then s.currentTerm else m.term)
  {
  }

  lemma AnswerAppendKeeps(f: RaftState, m: Message)
    requires m.AppendEntries?
    ensures var r := AnswerAppend(f, m);
            && SameSetup(f, r) && r.role == f.role && r.currentTerm == f.currentTerm && r.votedFor == f.votedFor
            && (m.leaderCommit <= m.prevLogIndex + |m.entries| ==> r.commitIndex >= f.commitIndex)
  {
  }

  lemma AppendKeeps(s: RaftState, m: Message, draw: nat)
    requires m.AppendEntries?
    ensures var r := HandleAppendEntries(s, m, draw);
            && SameSetup(s, r) && s.currentTerm <= r.currentTerm
            && (m.leaderCommit <= m.prevLogIndex + |m.entries| ==> r.commitIndex >= s.commitIndex)
            && (m.term < s.currentTerm ==> r.role == s.role && r.log == s.log && r.currentTerm == s.currentTerm)
            && (m.term >= s.currentTerm ==> r.role == Follower)
  {
    if m.term >= s.currentTerm {
      RecogniseKeeps(s, m, draw);
      AnswerAppendKeeps(Recognise(s, m, draw), m);
    }
  }

  lemma StepDownKeeps(s: RaftState, m: Message, draw: nat)
    ensures var r := StepDown(s, m, draw);
            && Grows(s, r) && r.log == s.log && r.msgs == s.msgs
            && (r.currentTerm == s.currentTerm ==> r == s)
            && (r.currentTerm != s.currentTerm ==> r.role == Follower)
  {
  }

  /** An append whose commit index lies beyond its own end is one no leader sends. */
  predicate Sensible(input: Input) {
    input.Receive? && input.m.AppendEntries? ==> input.m.leaderCommit <= input.m.prevLogIndex + |input.m.entries|
  }

  lemma StepFrame(r: RaftState, m: Message, draw: nat)
    ensures var a := Step(r, m, draw);
            && SameSetup(r, a) && r.currentTerm <= a.currentTerm
            && (Sensible(Receive(m)) ==> r.commitIndex <= a.commitIndex)
            && (r.role == Leader && a.role == Leader && a.currentTerm == r.currentTerm ==> a.log == r.log)
  {
    StepDownKeeps(r, m, draw);
    var s := StepDown(r, m, draw);
    match m
    case RequestVote(_, _, _, _, _, _) => RequestVoteGrows(s, m);
    case RequestVoteResp(_, _, _, _, _) => RequestVoteRespGrows(s, m, draw);
    case AppendEntries(_, _, _, _, _, _, _) => AppendKeeps(s, m, draw);
    case AppendEntriesResp(_, _, _, _, _) => AppendRespKeeps(s, m);
  }

  /**
   No call changes the configuration, lowers the term or the commit index, or moves the applied index; and a
   node that leads the same term before and after has at most added to its log.
   */
  lemma AdvanceFrame(r: RaftState, input: Input, draw: nat)
    ensures var a := Advance(r, input, draw);
            && SameSetup(r, a) && r.currentTerm <= a.currentTerm
            && (Sensible(input) ==> r.commitIndex <= a.commitIndex)
            && (r.role == Leader && a.role == Leader && a.currentTerm == r.currentTerm ==> r.log <= a.log)
  {
    match input
    case Timer => TickGrows(r, draw);
    case Client(data) => ProposeGrows(r, data);
    case Receive(m) => StepFrame(r, m, draw);
  }
}
