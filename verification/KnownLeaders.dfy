/** The leader that a node names to its clients did lead the node's term. */
module KnownLeaders {
  import opened Types
  import opened RaftSpec
  import opened Kv
  import opened NodeSpec
  import opened Cluster
  import opened Regions
  import opened Invariant
  import opened Elections
  import opened ElectionMoves
  import opened ElectionRuns

  /** Only a follower holds back its vote for the sake of a leader, and only for one it can name. */
  predicate Names(r: RaftState) {
    r.leaderActive ==> r.role == Follower && r.leaderId != NONE
  }

  /** A call names a leader it knew in the term, the node itself if it leads, or the sender of an append of the term. */
  ghost predicate Learns(r: RaftState, a: RaftState, input: Input) {
    && Names(a)
    && (a.leaderId != NONE ==>
          || (a.leaderId == r.leaderId && a.currentTerm == r.currentTerm)
          || (a.role == Leader && a.leaderId == a.id)
          || (input.Receive? && input.m.AppendEntries? && input.m.term == a.currentTerm && input.m.from == a.leaderId))
  }

  lemma BecomeLeaderLearns(r: RaftState, v: RaftState, input: Input)
    requires !v.leaderActive
    ensures Learns(r, BecomeLeader(v), input)
  {
  }

  lemma BecomeCandidateLearns(r: RaftState, s: RaftState, draw: nat, input: Input)
    requires !s.leaderActive
    ensures Learns(r, BecomeCandidate(s, draw), input)
  {
    BecomeLeaderLearns(r, Nominate(s, draw), input);
  }

  lemma TickLearns(r: RaftState, draw: nat)
    requires Names(r)
    ensures Learns(r, Tick(r, draw), Timer)
  {
    if r.role != Leader {
      BecomeCandidateLearns(r, r.(electionElapsed := 0, leaderActive := false), draw, Timer);
    }
  }

  lemma StepDownLearns(r: RaftState, m: Message, draw: nat)
    requires Names(r)
    ensures Learns(r, StepDown(r, m, draw), Receive(m))
  {
  }

  lemma AppendLearns(s: RaftState, m: Message, draw: nat)
    requires Names(s) && m.AppendEntries? && m.term <= s.currentTerm && m.from != NONE
    ensures Learns(s, HandleAppendEntries(s, m, draw), Receive(m))
  {
    if m.term == s.currentTerm && Consistent(s.log, m) {
      AnswerAccepted(Recognise(s, m, draw), m);
    }
  }

  lemma RequestVoteLearns(s: RaftState, m: Message)
    requires Names(s) && m.RequestVote?
    ensures Learns(s, HandleRequestVote(s, m), Receive(m))
  {
  }

  lemma RequestVoteRespLearns(s: RaftState, m: Message, draw: nat)
    requires Names(s) && m.RequestVoteResp?
    ensures Learns(s, HandleRequestVoteResp(s, m, draw), Receive(m))
  {
    if s.role == Candidate {
      if m.isPreVote {
        BecomeCandidateLearns(s, s.(preVotes := CountPreVote(s, m)), draw, Receive(m));
      } else {
        BecomeLeaderLearns(s, s.(votes := s.votes[m.from := !m.reject]), Receive(m));
      }
    }
  }

  lemma AppendRespLearns(s: RaftState, m: Message)
    requires Names(s) && m.AppendEntriesResp?
    ensures Learns(s, HandleAppendEntriesResp(s, m), Receive(m))
  {
  }

  lemma HandleLearns(s: RaftState, m: Message, draw: nat)
    requires Names(s) && (m.AppendEntries? ==> m.term <= s.currentTerm && m.from != NONE)
    ensures Learns(s, Handle(s, m, draw), Receive(m))
  {
    match m
    case RequestVote(_, _, _, _, _, _) => RequestVoteLearns(s, m);
    case RequestVoteResp(_, _, _, _, _) => RequestVoteRespLearns(s, m, draw);
    case AppendEntries(_, _, _, _, _, _, _) => AppendLearns(s, m, draw);
    case AppendEntriesResp(_, _, _, _, _) => AppendRespLearns(s, m);
  }

  lemma AdvanceLearns(r: RaftState, input: Input, draw: nat)
    requires Names(r) && (input.Receive? && input.m.AppendEntries? ==> input.m.from != NONE)
    ensures Learns(r, Advance(r, input, draw), input)
  {
    match input
    case Timer => TickLearns(r, draw);
    case Client(data) =>
    case Receive(m) =>
      StepDownLearns(r, m, draw);
      HandleLearns(StepDown(r, m, draw), m, draw);
  }

  // ---- Runs

  /** The leader named by the node won the node's term. */
  ghost predicate Knows(p: Poll, r: RaftState) {
    Names(r) && (r.leaderId != NONE ==> r.currentTerm in p.wins && p.wins[r.currentTerm].leader == r.leaderId)
  }

  ghost predicate AllKnow(s: State, p: Poll) {
    forall i {:trigger Knows(p, s.nodes[i].raft)} :: i in s.nodes ==> Knows(p, s.nodes[i].raft)
  }

  lemma KnowsLater(p: Poll, q: Poll, r: RaftState)
    requires Knows(p, r) && PollLe(p, q)
    ensures Knows(q, r)
  {
  }

  lemma MoverKnows(decode: Decoder, s: State, s': State, p: Poll, q: Poll, i: Id, input: Input, draw: nat)
    requires Fair(s, p) && AllKnow(s, p) && Fair(s', q) && PollLe(p, q) && NodeStep(decode, s, s', i, input, draw)
    requires !Idle(s.nodes[i], input)
    ensures i in s'.nodes && Knows(q, s'.nodes[i].raft)
  {
    var r, a := s.nodes[i].raft, Advance(s.nodes[i].raft, input, draw);
    assert Knows(p, s.nodes[i].raft);
    Named(s, p);
    if input.Receive? {
      assert SpokenOk(s.nodes.Keys, p, s.nodes, input.m);
    }
    AdvanceLearns(r, input, draw);
    FinishEffect(decode, s.nodes[i].(raft := a), input);
    assert VoterSettled(s'.nodes.Keys, q, i, s'.nodes[i]);
  }

  lemma NextKnows(decode: Decoder, s: State, s': State, p: Poll, q: Poll)
    requires Fair(s, p) && AllKnow(s, p) && Fair(s', q) && PollLe(p, q) && NextOrRestart(decode, s, s')
    ensures AllKnow(s', q)
  {
    if i, draw :| RestartStep(s, s', i, draw) {
      forall j | j in s'.nodes ensures Knows(q, s'.nodes[j].raft) {
        assert Knows(p, s.nodes[j].raft);
        KnowsLater(p, q, s.nodes[j].raft);
      }
    } else if i, input, draw :| NodeStep(decode, s, s', i, input, draw) {
      forall j | j in s'.nodes ensures Knows(q, s'.nodes[j].raft) {
        assert Knows(p, s.nodes[j].raft);
        KnowsLater(p, q, s.nodes[j].raft);
        if j == i && !Idle(s.nodes[i], input) {
          MoverKnows(decode, s, s', p, q, i, input, draw);
        }
      }
    } else {
      var m :| PreVoteArrives(s, s', m);
      forall j | j in s'.nodes ensures Knows(q, s'.nodes[j].raft) {
        assert Knows(p, s.nodes[j].raft);
        KnowsLater(p, q, s.nodes[j].raft);
      }
    }
  }

  /**
   In every run with restarts, the leader a node names has led the node's term; and a node that holds back its vote
   for a leader's sake is a follower that can name one.
   */
  lemma NamedLeaderLed(decode: Decoder, run: seq<State>, k: nat, i: Id) returns (n: nat)
    requires RunWithRestarts(decode, run) && At(run, k, i)
    ensures var r := RaftOf(run, k, i);
            && (r.leaderActive ==> r.role == Follower && r.leaderId != NONE)
            && (r.leaderId != NONE ==>
                  && n <= k && At(run, n, r.leaderId)
                  && RaftOf(run, n, r.leaderId).role == Leader && RaftOf(run, n, r.leaderId).currentTerm == r.currentTerm)
  {
    var ps := RunFair(decode, run);
    KnownSoFar(decode, run, ps, k);
    var r := RaftOf(run, k, i);
    assert Knows(ps[k], run[k].nodes[i].raft);
    n := 0;
    if r.leaderId != NONE {
      assert Witnessed(run, ps, k, r.currentTerm);
      n :| 0 <= n <= k && Leads(run[n], r.currentTerm, ps[k].wins[r.currentTerm]);
    }
  }

  lemma {:induction false} KnownSoFar(decode: Decoder, run: seq<State>, ps: seq<Poll>, k: nat)
    requires RunWithRestarts(decode, run) && Polls(run, ps) && k < |run|
    ensures AllKnow(run[k], ps[k])
  {
    if k == 0 {
      forall i | i in run[0].nodes ensures Knows(ps[0], run[0].nodes[i].raft) { assert Fresh(run[0].nodes[i]); }
    } else {
      KnownSoFar(decode, run, ps, k - 1);
      assert FairAt(run, ps, k - 1) && FairAt(run, ps, k) && Recalls(ps, k - 1, k) && MovesOrRestarts(decode, run, k);
      NextKnows(decode, run[k - 1], run[k], ps[k - 1], ps[k]);
    }
  }
}
