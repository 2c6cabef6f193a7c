/** One call into the Raft state machine, from any cluster that satisfies the invariant, keeps it. */
module Regions {
  import opened Types
  import opened RaftSpec
  import opened NodeSpec
  import opened History
  import opened LocalSteps
  import opened ElectionSteps
  import opened ReplicationSteps

  lemma LeTransitive(a: History, b: History, c: History)
    requires Le(a, b) && Le(b, c)
    ensures Le(a, c)
  {
  }

  lemma HeartbeatsSent(r: RaftState)
    requires r.msgs == []
    ensures Elements(BroadcastHeartbeat(r).msgs) == Heartbeats(r)
  {
    var ms := seq(|r.peers|, k requires 0 <= k < |r.peers| => HeartbeatFor(r, r.peers[k]));
    forall p | p in r.peers ensures HeartbeatFor(r, p) in ms {
      var k :| 0 <= k < |r.peers| && r.peers[k] == p;
      assert ms[k] == HeartbeatFor(r, p);
    }
    assert BroadcastHeartbeat(r).msgs == ms;
  }

  lemma RequestsSent(r: RaftState)
    requires r.msgs == []
    ensures Elements(BroadcastRequestVote(r).msgs) == VoteRequests(r)
  {
    var ms := seq(|r.peers|, k requires 0 <= k < |r.peers| => VoteRequestFor(r, r.peers[k]));
    forall p | p in r.peers ensures VoteRequestFor(r, p) in ms {
      var k :| 0 <= k < |r.peers| && r.peers[k] == p;
      assert ms[k] == VoteRequestFor(r, p);
    }
    assert BroadcastRequestVote(r).msgs == ms;
  }

  /** Changing only timers and buffers, and sending nothing. */
  lemma Settle(nodes: map<Id, RaftState>, net: set<Message>, h: History, i: Id, r: RaftState)
    requires Inv(nodes, net, h) && i in nodes && SameView(nodes[i], r)
    ensures Inv(nodes[i := r], net, h)
  {
    assert net + {} == net;
    IdleStep(nodes, net, h, i, r, {});
  }

  lemma Overwrite(nodes: map<Id, RaftState>, i: Id, a: RaftState, b: RaftState)
    ensures nodes[i := a][i := b] == nodes[i := b]
  {
  }

  lemma CommitBounds(nodes: map<Id, RaftState>, net: set<Message>, h: History, i: Id)
    requires Inv(nodes, net, h) && i in nodes
    ensures nodes[i].lastApplied <= nodes[i].commitIndex < |nodes[i].log|
  {
    assert NodeOk(nodes.Keys, h, net, i, nodes[i]);
  }

  // ---- Elections

  lemma BecomeLeaderRegion(nodes: map<Id, RaftState>, net: set<Message>, h: History, i: Id) returns (h': History)
    requires Inv(nodes, net, h) && i in nodes && nodes[i].msgs == []
    requires nodes[i].role == Candidate && HasQuorum(nodes[i])
    ensures var r := BecomeLeader(nodes[i]);
            Inv(nodes[i := r], net + Elements(r.msgs), h') && Le(h, h')
  {
    h' := PromoteStep(nodes, net, h, i);
    var l := Promote(nodes[i]);
    HeartbeatsSent(l);
    CommitBounds(nodes, net, h, i);
    Settle(nodes[i := l], net + Heartbeats(l), h', i, BecomeLeader(nodes[i]));
    Overwrite(nodes, i, l, BecomeLeader(nodes[i]));
  }

  lemma BecomeCandidateRegion(nodes: map<Id, RaftState>, net: set<Message>, h: History, i: Id, s: RaftState, draw: nat)
    returns (h': History)
    requires Inv(nodes, net, h) && i in nodes && Restless(nodes[i], s) && s.msgs == []
    ensures var r := BecomeCandidate(s, draw);
            Inv(nodes[i := r], net + Elements(r.msgs), h') && Le(h, h')
  {
    var c := Nominate(s, draw);
    var h1 := NominateStep(nodes, net, h, i, s, draw);
    var nodes1 := nodes[i := c];
    if HasQuorum(c) {
      assert VoteRequests(c) == {} by {
        assert Granted(c.votes) == {s.id};
        assert |c.peers| == 0;
      }
      assert net + VoteRequests(c) == net;
      h' := BecomeLeaderRegion(nodes1, net, h1, i);
      LeTransitive(h, h1, h');
      Overwrite(nodes, i, c, BecomeLeader(c));
    } else {
      h' := h1;
      RequestsSent(c);
      CommitBounds(nodes, net, h, i);
      Settle(nodes1, net + VoteRequests(c), h', i, BroadcastRequestVote(c));
      Overwrite(nodes, i, c, BroadcastRequestVote(c));
    }
  }

  lemma TickRegion(nodes: map<Id, RaftState>, net: set<Message>, h: History, i: Id, draw: nat) returns (h': History)
    requires Inv(nodes, net, h) && i in nodes && nodes[i].msgs == []
    ensures var r := Tick(nodes[i], draw);
            Inv(nodes[i := r], net + Elements(r.msgs), h') && Le(h, h')
  {
    var r := nodes[i];
    h' := h;
    CommitBounds(nodes, net, h, i);
    if r.role == Leader && r.heartbeatElapsed + 1 >= r.heartbeatTimeout {
      HeartbeatRegion(nodes, net, h, i, r.(heartbeatElapsed := 0, heartbeatAcked := 1));
    } else if r.role != Leader && r.electionElapsed + 1 >= r.electionTimeout {
      h' := BecomeCandidateRegion(nodes, net, h, i, r.(electionElapsed := 0, leaderActive := false), draw);
    } else {
      assert Tick(r, draw).msgs == [] && net + Elements<Message>([]) == net;
      Settle(nodes, net, h, i, Tick(r, draw));
    }
  }

  lemma HeartbeatRegion(nodes: map<Id, RaftState>, net: set<Message>, h: History, i: Id, s: RaftState)
    requires Inv(nodes, net, h) && i in nodes && nodes[i].role == Leader
    requires SameView(nodes[i], s) && s.msgs == []
    ensures var r := BroadcastHeartbeat(s);
            Inv(nodes[i := r], net + Elements(r.msgs), h)
  {
    Settle(nodes, net, h, i, s);
    var nodes1 := nodes[i := s];
    assert NodeOk(nodes1.Keys, h, net, i, nodes1[i]);
    HeartbeatsOk(nodes1.Keys, h, net, i, s);
    HeartbeatsSent(s);
    IdleStep(nodes1, net, h, i, BroadcastHeartbeat(s), Heartbeats(s));
    Overwrite(nodes, i, s, BroadcastHeartbeat(s));
  }

  lemma ProposeRegion(nodes: map<Id, RaftState>, net: set<Message>, h: History, i: Id, data: Bytes) returns (h': History)
    requires Inv(nodes, net, h) && i in nodes && nodes[i].msgs == []
    ensures var r := Propose(nodes[i], data).0;
            Inv(nodes[i := r], net + Elements(r.msgs), h') && Le(h, h')
  {
    var r := nodes[i];
    h' := h;
    CommitBounds(nodes, net, h, i);
    if r.role == Leader {
      var e := Entry(LastLogIndex(r.log) + 1, r.currentTerm, Command, data);
      h' := ProposeStep(nodes, net, h, i, e);
      var l := Appended(r, e);
      HeartbeatsSent(l);
      Settle(nodes[i := l], net + Heartbeats(l), h', i, BroadcastHeartbeat(l));
      Overwrite(nodes, i, l, BroadcastHeartbeat(l));
    } else {
      assert net + Elements<Message>([]) == net;
      Settle(nodes, net, h, i, r);
    }
  }

  // ---- Messages

  /** A node that answers without changing anything the protocol relies on. */
  lemma Answer(nodes: map<Id, RaftState>, net: set<Message>, h: History, i: Id, m: Message)
    requires Inv(nodes, net, h) && i in nodes && nodes[i].msgs == []
    requires MessageOk(nodes.Keys, h, m) && !m.RequestVote?
    ensures var r := Send(nodes[i], m);
            Inv(nodes[i := r], net + Elements(r.msgs), h)
  {
    CommitBounds(nodes, net, h, i);
    assert Elements(Send(nodes[i], m).msgs) == {m};
    IdleStep(nodes, net, h, i, Send(nodes[i], m), {m});
  }

  lemma RequestVoteRegion(nodes: map<Id, RaftState>, net: set<Message>, h: History, i: Id, m: Message) returns (h': History)
    requires Inv(nodes, net, h) && i in nodes && m in net && nodes[i].msgs == []
    requires m.RequestVote? && m.to == i && (!m.isPreVote ==> m.term <= nodes[i].currentTerm)
    ensures var r := HandleRequestVote(nodes[i], m);
            Inv(nodes[i := r], net + Elements(r.msgs), h') && Le(h, h')
  {
    var r := nodes[i];
    assert r.id == i by { assert NodeOk(nodes.Keys, h, net, i, r); }
    var r' := HandleRequestVote(r, m);
    var reply := r'.msgs[0];
    assert r'.msgs == [reply];
    if CanGrant(r, m) {
      CommitBounds(nodes, net, h, i);
      h' := GrantStep(nodes, net, h, i, m, r');
      assert Elements(r'.msgs) == {reply};
    } else {
      h' := h;
      assert r' == Send(r, reply);
      Answer(nodes, net, h, i, reply);
    }
  }

  lemma RequestVoteRespRegion(nodes: map<Id, RaftState>, net: set<Message>, h: History, i: Id, m: Message, draw: nat)
    returns (h': History)
    requires Inv(nodes, net, h) && i in nodes && m in net && nodes[i].msgs == []
    requires m.RequestVoteResp? && m.to == i
    ensures var r := HandleRequestVoteResp(nodes[i], m, draw);
            Inv(nodes[i := r], net + Elements(r.msgs), h') && Le(h, h')
  {
    var r := nodes[i];
    h' := h;
    CommitBounds(nodes, net, h, i);
    assert net + Elements<Message>([]) == net;
    if r.role != Candidate || (!m.isPreVote && m.term != r.currentTerm) {
      Settle(nodes, net, h, i, r);
    } else if m.isPreVote {
      var p := r.(preVotes := CountPreVote(r, m));
      if |Granted(p.preVotes)| >= QuorumSize(p) {
        h' := BecomeCandidateRegion(nodes, net, h, i, p, draw);
      } else {
        Settle(nodes, net, h, i, p);
      }
    } else {
      CountVoteStep(nodes, net, h, i, m);
      var v := r.(votes := r.votes[m.from := !m.reject]);
      if HasQuorum(v) {
        h' := BecomeLeaderRegion(nodes[i := v], net, h, i);
        Overwrite(nodes, i, v, BecomeLeader(v));
      }
    }
  }

  lemma AppendRegion(nodes: map<Id, RaftState>, net: set<Message>, h: History, i: Id, m: Message, draw: nat)
    returns (h': History)
    requires Inv(nodes, net, h) && i in nodes && m in net && nodes[i].msgs == []
    requires m.AppendEntries? && m.to == i && m.term <= nodes[i].currentTerm
    ensures var r := HandleAppendEntries(nodes[i], m, draw);
            Inv(nodes[i := r], net + Elements(r.msgs), h') && Le(h, h')
  {
    var r := nodes[i];
    h' := h;
    assert r.id == i by { assert NodeOk(nodes.Keys, h, net, i, r); }
    assert MessageOk(nodes.Keys, h, m);
    if m.term < r.currentTerm {
      Answer(nodes, net, h, i, AppendEntriesResp(i, m.from, r.currentTerm, true, 0));
    } else {
      MemberNamed(nodes, net, h, m.from);
      RecogniseStep(nodes, net, h, i, m, draw);
      var f := Recognise(r, m, draw);
      h' := RecognisedRegion(nodes[i := f], net, h, i, m);
      Overwrite(nodes, i, f, HandleAppendEntries(r, m, draw));
    }
  }

  lemma RecognisedRegion(nodes: map<Id, RaftState>, net: set<Message>, h: History, i: Id, m: Message) returns (h': History)
    requires Inv(nodes, net, h) && i in nodes && m in net && nodes[i].msgs == []
    requires m.AppendEntries? && m.to == i && m.term == nodes[i].currentTerm && nodes[i].role == Follower
    ensures var r := AnswerAppend(nodes[i], m);
            Inv(nodes[i := r], net + Elements(r.msgs), h') && Le(h, h')
  {
    if !Consistent(nodes[i].log, m) {
      h' := h;
      RejectedRegion(nodes, net, h, i, m);
    } else {
      h' := AcceptedRegion(nodes, net, h, i, m);
    }
  }

  lemma RejectedRegion(nodes: map<Id, RaftState>, net: set<Message>, h: History, i: Id, m: Message)
    requires Inv(nodes, net, h) && i in nodes && m in net && nodes[i].msgs == []
    requires m.AppendEntries? && m.to == i && m.term == nodes[i].currentTerm && nodes[i].role == Follower
    requires !Consistent(nodes[i].log, m)
    ensures var r := AnswerAppend(nodes[i], m);
            Inv(nodes[i := r], net + Elements(r.msgs), h)
  {
    var f := nodes[i];
    assert f.id == i by { assert NodeOk(nodes.Keys, h, net, i, f); }
    assert MessageOk(nodes.Keys, h, m);
    RejectionOk(nodes.Keys, h, f, m);
    Answer(nodes, net, h, i, AppendEntriesResp(f.id, m.from, f.currentTerm, true, BackoffHint(f.log, m)));
  }

  lemma AcceptedRegion(nodes: map<Id, RaftState>, net: set<Message>, h: History, i: Id, m: Message) returns (h': History)
    requires Inv(nodes, net, h) && i in nodes && m in net && nodes[i].msgs == []
    requires m.AppendEntries? && m.to == i && m.term == nodes[i].currentTerm && nodes[i].role == Follower
    requires Consistent(nodes[i].log, m)
    ensures var r := AnswerAppend(nodes[i], m);
            Inv(nodes[i := r], net + Elements(r.msgs), h') && Le(h, h')
  {
    assert nodes[i].id == i by { assert NodeOk(nodes.Keys, h, net, i, nodes[i]); }
    AnswerAccepted(nodes[i], m);
    var a;
    a, h' := AcceptStep(nodes, net, h, i, m);
    SettleReply(nodes, net, h', i, a, AppendEntriesResp(i, m.from, m.term, false, LastLogIndex(a.log)));
  }

  lemma AnswerAccepted(f: RaftState, m: Message)
    requires m.AppendEntries? && Consistent(f.log, m)
    ensures var log := Merge(f.log, m.prevLogIndex + 1, m.entries);
            var c := FollowCommit(f.commitIndex, m.leaderCommit, m.prevLogIndex + |m.entries|);
            AnswerAppend(f, m) == Send(f.(log := log, commitIndex := c),
                                       AppendEntriesResp(f.id, m.from, f.currentTerm, false, LastLogIndex(log)))
  {
  }

  /** The reply already counts as sent; putting it in the buffer changes nothing. */
  lemma SettleReply(nodes: map<Id, RaftState>, net: set<Message>, h: History, i: Id, a: RaftState, reply: Message)
    requires i in nodes && Inv(nodes[i := a], net + {reply}, h) && a.msgs == []
    ensures var r := Send(a, reply);
            Inv(nodes[i := r], net + Elements(r.msgs), h)
  {
    var r := Send(a, reply);
    CommitBounds(nodes[i := a], net + {reply}, h, i);
    Settle(nodes[i := a], net + {reply}, h, i, r);
    Overwrite(nodes, i, a, r);
    assert Elements(r.msgs) == {reply};
  }

  lemma AppendRespRegion(nodes: map<Id, RaftState>, net: set<Message>, h: History, i: Id, m: Message)
    requires Inv(nodes, net, h) && i in nodes && m in net && nodes[i].msgs == []
    requires m.AppendEntriesResp? && m.to == i
    ensures var r := HandleAppendEntriesResp(nodes[i], m);
            Inv(nodes[i := r], net + Elements(r.msgs), h)
  {
    var r := nodes[i];
    CommitBounds(nodes, net, h, i);
    assert net + Elements<Message>([]) == net;
    if r.role != Leader || m.term != r.currentTerm {
      Settle(nodes, net, h, i, r);
    } else if m.reject {
      BackOffStep(nodes, net, h, i, m);
    } else {
      assert m.index > 0 by { assert MessageOk(nodes.Keys, h, m); }
      SuccessStep(nodes, net, h, i, m);
      var a := NoteSuccess(r, m);
      var b := a.(heartbeatAcked := a.heartbeatAcked + 1);
      Settle(nodes[i := a], net, h, i, b);
      Overwrite(nodes, i, a, b);
      AdvanceStep(nodes[i := b], net, h, i);
      Overwrite(nodes, i, b, MaybeAdvanceCommit(b));
    }
  }

  lemma StepRegion(nodes: map<Id, RaftState>, net: set<Message>, h: History, i: Id, m: Message, draw: nat)
    returns (h': History)
    requires Inv(nodes, net, h) && i in nodes && m in net && m.to == i && nodes[i].msgs == []
    ensures var r := Step(nodes[i], m, draw);
            Inv(nodes[i := r], net + Elements(r.msgs), h') && Le(h, h')
  {
    StepDownStep(nodes, net, h, i, m, draw);
    var s := StepDown(nodes[i], m, draw);
    var nodes1 := nodes[i := s];
    Overwrite(nodes, i, s, Step(nodes[i], m, draw));
    match m
    case RequestVote(_, _, _, _, _, _) => h' := RequestVoteRegion(nodes1, net, h, i, m);
    case RequestVoteResp(_, _, _, _, _) => h' := RequestVoteRespRegion(nodes1, net, h, i, m, draw);
    case AppendEntries(_, _, _, _, _, _, _) => h' := AppendRegion(nodes1, net, h, i, m, draw);
    case AppendEntriesResp(_, _, _, _, _) => AppendRespRegion(nodes1, net, h, i, m); h' := h;
  }

  /** Every call keeps the invariant. */
  lemma AdvanceRegion(nodes: map<Id, RaftState>, net: set<Message>, h: History, i: Id, input: Input, draw: nat)
    returns (h': History)
    requires Inv(nodes, net, h) && i in nodes && nodes[i].msgs == []
    requires input.Receive? ==> input.m in net && input.m.to == i
    ensures var r := Advance(nodes[i], input, draw);
            Inv(nodes[i := r], net + Elements(r.msgs), h') && Le(h, h')
  {
    match input
    case Timer => h' := TickRegion(nodes, net, h, i, draw);
    case Client(data) => h' := ProposeRegion(nodes, net, h, i, data);
    case Receive(m) => h' := StepRegion(nodes, net, h, i, m, draw);
  }
}
