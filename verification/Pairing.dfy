/** Every request is answered exactly once, to whoever asked, and no message a node produces is dropped. */
module Pairing {
  import opened Types
  import opened RaftSpec
  import opened NodeSpec
  import opened Frames

  /** Only requests. */
  ghost predicate OnlyRequests(msgs: seq<Message>) {
    forall m :: m in msgs ==> m.AppendEntries? || m.RequestVote?
  }

  lemma BroadcastsAreRequests(r: RaftState)
    requires r.msgs == []
    ensures OnlyRequests(BroadcastHeartbeat(r).msgs) && OnlyRequests(BroadcastRequestVote(r).msgs)
  {
  }

  lemma BecomeCandidateRequests(s: RaftState, draw: nat)
    requires s.msgs == []
    ensures OnlyRequests(BecomeCandidate(s, draw).msgs)
  {
    var c := Nominate(s, draw);
    BroadcastsAreRequests(c);
    BroadcastsAreRequests(Promote(c));
  }

  lemma TickRequests(r: RaftState, draw: nat)
    requires r.msgs == []
    ensures OnlyRequests(Tick(r, draw).msgs)
  {
    if r.role == Leader {
      BroadcastsAreRequests(r.(heartbeatElapsed := 0, heartbeatAcked := 1));
    } else {
      BecomeCandidateRequests(r.(electionElapsed := 0, leaderActive := false), draw);
    }
  }

  lemma ProposeRequests(r: RaftState, data: Bytes)
    requires r.msgs == []
    ensures OnlyRequests(Propose(r, data).0.msgs)
  {
    if r.role == Leader {
      var e := Entry(LastLogIndex(r.log) + 1, r.currentTerm, Command, data);
      BroadcastsAreRequests(r.(log := r.log + [e], matchIndex := r.matchIndex[r.id := e.index]));
    }
  }

  lemma RequestVoteRespRequests(s: RaftState, m: Message, draw: nat)
    requires s.msgs == [] && m.RequestVoteResp?
    ensures OnlyRequests(HandleRequestVoteResp(s, m, draw).msgs)
  {
    if s.role == Candidate {
      if m.isPreVote {
        BecomeCandidateRequests(s.(preVotes := CountPreVote(s, m)), draw);
      } else {
        BroadcastsAreRequests(Promote(s.(votes := s.votes[m.from := !m.reject])));
      }
    }
  }

  /** The reply that answers a request. */
  predicate Answers(request: Message, reply: Message) {
    && reply.to == request.from
    && ((request.AppendEntries? && reply.AppendEntriesResp?) || (request.RequestVote? && reply.RequestVoteResp?))
  }

  lemma RequestVoteAnswered(s: RaftState, m: Message)
    requires s.msgs == [] && m.RequestVote?
    ensures var msgs := HandleRequestVote(s, m).msgs;
            |msgs| == 1 && Answers(m, msgs[0]) && msgs[0].from == s.id && msgs[0].term == s.currentTerm
  {
    var grant := m.isPreVote && !(s.leaderActive && m.term <= s.currentTerm)
                 && m.term >= s.currentTerm && IsLogUpToDate(s.log, m.lastLogIndex, m.lastLogTerm);
    if CanGrant(s, m) {
      assert HandleRequestVote(s, m).msgs == [RequestVoteResp(s.id, m.from, s.currentTerm, false, false)];
    } else {
      assert HandleRequestVote(s, m) == Send(s, RequestVoteResp(s.id, m.from, s.currentTerm, !grant, m.isPreVote));
    }
  }

  lemma AppendAnswered(s: RaftState, m: Message, draw: nat)
    requires s.msgs == [] && m.AppendEntries?
    ensures var a := HandleAppendEntries(s, m, draw);
            |a.msgs| == 1 && Answers(m, a.msgs[0]) && a.msgs[0].from == s.id && a.msgs[0].term == a.currentTerm
  {
    if m.term >= s.currentTerm {
      RecogniseKeeps(s, m, draw);
      AnswerIsReply(Recognise(s, m, draw), m);
    }
  }

  lemma AnswerIsReply(f: RaftState, m: Message)
    requires f.msgs == [] && m.AppendEntries?
    ensures var a := AnswerAppend(f, m);
            |a.msgs| == 1 && Answers(m, a.msgs[0]) && a.msgs[0].from == f.id && a.msgs[0].term == a.currentTerm
  {
    AnswerAppendKeeps(f, m);
    if Consistent(f.log, m) {
      var index := LastLogIndex(Merge(f.log, m.prevLogIndex + 1, m.entries));
      assert AnswerAppend(f, m).msgs == [AppendEntriesResp(f.id, m.from, f.currentTerm, false, index)];
    } else {
      assert AnswerAppend(f, m).msgs == [AppendEntriesResp(f.id, m.from, f.currentTerm, true, BackoffHint(f.log, m))];
    }
  }

  /** Whatever the state and the request, exactly one reply comes out, and it is for the requester. */
  lemma RequestsAnsweredOnce(r: RaftState, m: Message, draw: nat)
    requires r.msgs == [] && (m.AppendEntries? || m.RequestVote?)
    ensures var a := Step(r, m, draw);
            |a.msgs| == 1 && Answers(m, a.msgs[0]) && a.msgs[0].from == r.id && a.msgs[0].term == a.currentTerm
  {
    StepDownKeeps(r, m, draw);
    var s := StepDown(r, m, draw);
    if m.AppendEntries? {
      AppendAnswered(s, m, draw);
    } else {
      RequestVoteAnswered(s, m);
      RequestVoteGrows(s, m);
    }
  }

  lemma ReplyMakesRequests(r: RaftState, m: Message, draw: nat)
    requires r.msgs == [] && (m.RequestVoteResp? || m.AppendEntriesResp?)
    ensures OnlyRequests(Step(r, m, draw).msgs)
  {
    StepDownKeeps(r, m, draw);
    if m.RequestVoteResp? {
      RequestVoteRespRequests(StepDown(r, m, draw), m, draw);
    } else {
      AppendRespKeeps(StepDown(r, m, draw), m);
    }
  }

  lemma ReplyLeaves(request: Message, msgs: seq<Message>)
    requires |msgs| == 1 && Answers(request, msgs[0])
    ensures forall k :: k in msgs ==> Leaves(Receive(request), k)
  {
  }

  /** No message that a call produces is dropped when the node dispatches its output. */
  lemma NothingDropped(r: RaftState, input: Input, draw: nat)
    requires r.msgs == []
    ensures forall m :: m in Advance(r, input, draw).msgs ==> Leaves(input, m)
  {
    match input
    case Timer => TickRequests(r, draw);
    case Client(data) => ProposeRequests(r, data);
    case Receive(m) =>
      if m.AppendEntries? || m.RequestVote? {
        RequestsAnsweredOnce(r, m, draw);
        ReplyLeaves(m, Step(r, m, draw).msgs);
      } else {
        ReplyMakesRequests(r, m, draw);
      }
  }
}
