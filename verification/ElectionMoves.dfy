/** Every step of a cluster, restarts included, keeps what holds of its elections. */
module ElectionMoves {
  import opened Types
  import opened RaftSpec
  import opened Kv
  import opened NodeSpec
  import opened Cluster
  import opened Electorate
  import opened Invariant
  import opened Elections

  /** A client's request to a node that does not lead is turned away. */
  predicate Idle(n: NodeState, input: Input) {
    input.Client? && n.raft.role != Leader
  }

  lemma NodeStepFair(decode: Decoder, s: State, s': State, i: Id, input: Input, draw: nat, p: Poll)
    requires Fair(s, p) && NodeStep(decode, s, s', i, input, draw) && !Idle(s.nodes[i], input)
    ensures var q := NextPoll(p, i, s.nodes[i].raft, Advance(s.nodes[i].raft, input, draw));
            Fair(s', q) && PollNext(p, s', q) && s'.nodes.Keys == s.nodes.Keys
  {
    var r, a := s.nodes[i].raft, Advance(s.nodes[i].raft, input, draw);
    assert VoterSettled(s.nodes.Keys, p, i, s.nodes[i]);
    if input.Receive? {
      assert SpokenOk(s.nodes.Keys, p, s.nodes, input.m);
    }
    AdvanceElectoral(r, input, draw);
    StepShape(decode, s, s', i, input, draw);
    FinishVote(decode, s.nodes[i].(raft := a), input);
    InstallFair(s, s', p, i, input, a);
    NewWinnerLeads(s', p, i, r, a);
  }

  /** Whoever has newly won leads. */
  lemma NewWinnerLeads(s': State, p: Poll, i: Id, r: RaftState, a: RaftState)
    requires i in s'.nodes && SameVote(a, s'.nodes[i].raft) && PollLe(p, NextPoll(p, i, r, a))
    ensures PollNext(p, s', NextPoll(p, i, r, a))
  {
  }

  lemma FinishVote(decode: Decoder, a: NodeState, input: Input)
    ensures var (n, outs) := Finish(decode, a, input);
            && SameVote(a.raft, n.raft) && n.raft.msgs == [] && outs == a.raft.msgs
            && n.stored == HardState(a.raft.currentTerm, a.raft.votedFor)
  {
    FinishEffect(decode, a, input);
  }

  /** A restart brings back the saved pair, which is the pair the node had. */
  lemma RestartFair(s: State, s': State, i: Id, draw: nat, p: Poll)
    requires Fair(s, p) && RestartStep(s, s', i, draw)
    ensures Fair(s', p) && s'.nodes.Keys == s.nodes.Keys
  {
    assert s'.nodes.Keys == s.nodes.Keys;
    forall j | j in s'.nodes ensures VoterSettled(s'.nodes.Keys, p, j, s'.nodes[j]) {
      assert VoterSettled(s.nodes.Keys, p, j, s.nodes[j]);
    }
    forall m | m in s'.net ensures SpokenOk(s'.nodes.Keys, p, s'.nodes, m) {
      assert SpokenOk(s.nodes.Keys, p, s.nodes, m);
    }
  }

  lemma PreVoteFair(s: State, s': State, m: Message, p: Poll)
    requires Fair(s, p) && PreVoteArrives(s, s', m)
    ensures Fair(s', p)
  {
    forall k | k in s'.net ensures SpokenOk(s'.nodes.Keys, p, s'.nodes, k) {
      assert k != m ==> SpokenOk(s.nodes.Keys, p, s.nodes, k);
    }
    forall j | j in s'.nodes ensures VoterSettled(s'.nodes.Keys, p, j, s'.nodes[j]) {
      assert VoterSettled(s.nodes.Keys, p, j, s.nodes[j]);
    }
  }

  lemma NextFair(decode: Decoder, s: State, s': State, p: Poll) returns (q: Poll)
    requires Fair(s, p) && NextOrRestart(decode, s, s')
    ensures Fair(s', q) && PollNext(p, s', q) && s'.nodes.Keys == s.nodes.Keys
  {
    if i, draw :| RestartStep(s, s', i, draw) {
      RestartFair(s, s', i, draw, p);
      q := p;
    } else if i, input, draw :| NodeStep(decode, s, s', i, input, draw) {
      if Idle(s.nodes[i], input) {
        q := p;
        assert s' == s;
      } else {
        q := NextPoll(p, i, s.nodes[i].raft, Advance(s.nodes[i].raft, input, draw));
        NodeStepFair(decode, s, s', i, input, draw, p);
      }
    } else {
      var m :| PreVoteArrives(s, s', m);
      PreVoteFair(s, s', m, p);
      q := p;
    }
  }

  lemma InitFair(s: State)
    requires Init(s)
    ensures Fair(s, Poll(map[], {}))
  {
    forall i | i in s.nodes ensures VoterSettled(s.nodes.Keys, Poll(map[], {}), i, s.nodes[i]) {
      assert Fresh(s.nodes[i]);
    }
  }
}
