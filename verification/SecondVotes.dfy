/**
 When a node can vote twice in a term. A candidate that recognises the winner forgets its own vote, in memory and
 in its database. Without a restart the leader it knows keeps it from voting again; a restart forgets the leader.
 */
module SecondVotes {
  import opened Types
  import opened RaftSpec
  import opened Kv
  import opened NodeSpec
  import opened Cluster
  import opened Electorate
  import opened Invariant
  import opened Frames
  import opened Runs
  import opened Elections
  import opened ElectionMoves
  import opened Granting
  import opened ElectionRuns

  // ---- When a vote is erased

  /** The guard of the branch that makes a node a follower within its term. */
  predicate TakesOwnTermAppend(r: RaftState, input: Input) {
    r.role != Follower && input.Receive? && input.m.AppendEntries? && input.m.term == r.currentTerm
  }

  lemma LoserForgets(decode: Decoder, n: NodeState, m: Message, draw: nat)
    requires TakesOwnTermAppend(n.raft, Receive(m))
    ensures var n' := Region(decode, n, Receive(m), draw).0;
            && n'.stored == HardState(n.raft.currentTerm, NONE)
            && n'.raft.id == n.raft.id && n'.raft.peers == n.raft.peers
            && n'.raft.baseElectionTimeout == n.raft.baseElectionTimeout
  {
    var a := Step(n.raft, m, draw);
    assert a == AnswerAppend(Recognise(n.raft, m, draw), m);
    AnswerAppendKeeps(Recognise(n.raft, m, draw), m);
    FinishEffect(decode, n.(raft := a), Receive(m));
  }

  /**
   In every run with restarts, a critical section that stays in its term changes a vote in the database exactly
   when a node that is not a follower takes an append of that term, and then it erases the vote.
   */
  lemma VoteErasedExactly(decode: Decoder, run: seq<State>, k: nat, i: Id, input: Input, draw: nat)
    requires RunWithRestarts(decode, run) && 0 < k < |run|
    requires NodeStep(decode, run[k - 1], run[k], i, input, draw) && run[k - 1].nodes[i].stored.vote != NONE
    ensures i in run[k].nodes
    ensures var old', new' := run[k - 1].nodes[i].stored, run[k].nodes[i].stored;
            && (new'.term == old'.term && new'.vote != old'.vote <==> TakesOwnTermAppend(run[k - 1].nodes[i].raft, input))
            && (new'.term == old'.term && new'.vote != old'.vote ==> new'.vote == NONE)
  {
    var ps := RunFair(decode, run);
    assert FairAt(run, ps, k - 1);
    var s, s' := run[k - 1], run[k];
    assert VoterSettled(s.nodes.Keys, ps[k - 1], i, s.nodes[i]);
    if input.Receive? {
      assert SpokenOk(s.nodes.Keys, ps[k - 1], s.nodes, input.m);
    }
    if TakesOwnTermAppend(s.nodes[i].raft, input) {
      LoserForgets(decode, s.nodes[i], input.m, draw);
    } else if !Idle(s.nodes[i], input) {
      AdvanceElectoral(s.nodes[i].raft, input, draw);
      var a := Advance(s.nodes[i].raft, input, draw);
      FinishVote(decode, s.nodes[i].(raft := a), input);
    }
  }

  /**
   In every run with restarts, a node that has stood in a term grants that term's vote to another only after the
   term has had a leader, and one that did not count the node's vote.
   */
  lemma SecondVoteNeedsWinner(decode: Decoder, run: seq<State>, k: nat, i: Id, l: nat, m: Message) returns (n: nat, j: Id)
    requires RunWithRestarts(decode, run) && k <= l < |run| && i in run[k].nodes && run[k].nodes[i].raft.role != Follower
    requires m in run[l].net && IsGrant(m) && m.from == i && m.term == run[k].nodes[i].raft.currentTerm && m.to != i
    ensures n <= l && j in run[n].nodes
    ensures run[n].nodes[j].raft.role == Leader && run[n].nodes[j].raft.currentTerm == m.term
    ensures i !in Granted(run[n].nodes[j].raft.votes)
  {
    var ps := RunFair(decode, run);
    var t := m.term;
    assert FairAt(run, ps, k) && FairAt(run, ps, l) && Recalls(ps, k, l);
    assert VoterSettled(run[k].nodes.Keys, ps[k], i, run[k].nodes[i]);
    assert SpokenOk(run[l].nodes.Keys, ps[l], run[l].nodes, m);
    assert Ballot(i, t, i) in ps[l].ballots && Ballot(i, t, m.to) in ps[l].ballots;
    assert !Locked(ps[l], i, t);
    assert Witnessed(run, ps, l, t);
    n :| 0 <= n <= l && Leads(run[n], t, ps[l].wins[t]);
    j := ps[l].wins[t].leader;
  }

  // ---- A second vote

  /** A restarted node that has no vote saved grants one to whoever asks in the saved term. */
  lemma RestartedGrants(decode: Decoder, n: NodeState, draw: nat, q: Message, draw': nat)
    requires n.stored.vote == NONE && q.RequestVote? && !q.isPreVote && q.term == n.stored.term
    ensures var (n', outs) := Region(decode, Restarted(n, draw), Receive(q), draw');
            && n'.stored == HardState(q.term, q.from)
            && outs == [RequestVoteResp(n.raft.id, q.from, q.term, false, false)]
  {
    var r := Restarted(n, draw);
    assert CanGrant(r.raft, q);
    var a := Step(r.raft, q, draw');
    assert a.votedFor == q.from && a.currentTerm == q.term && a.msgs == [RequestVoteResp(n.raft.id, q.from, q.term, false, false)];
    FinishEffect(decode, r.(raft := a), Receive(q));
  }

  /** The state after a critical section of node i, which draws the shortest timeout. */
  ghost function After(decode: Decoder, s: State, i: Id, input: Input): State
    requires i in s.nodes
  {
    var (n, outs) := Region(decode, s.nodes[i], input, 0);
    State(s.nodes[i := n], s.net + set m | m in outs && Leaves(input, m))
  }

  ghost function Reboot(s: State, i: Id): State
    requires i in s.nodes
  {
    s.(nodes := s.nodes[i := Restarted(s.nodes[i], 0)])
  }

  lemma Goes(decode: Decoder, run: seq<State>, i: Id, input: Input)
    requires RunWithRestarts(decode, run)
    requires var s := run[|run| - 1];
             && i in s.nodes && 0 < s.nodes[i].raft.baseElectionTimeout
             && (input.Receive? ==> input.m in s.net && input.m.to == i)
    ensures RunWithRestarts(decode, run + [After(decode, run[|run| - 1], i, input)])
  {
    var s := run[|run| - 1];
    assert NodeStep(decode, s, After(decode, s, i, input), i, input, 0);
    Extend(decode, run, After(decode, s, i, input));
  }

  lemma Reboots(decode: Decoder, run: seq<State>, i: Id)
    requires RunWithRestarts(decode, run)
    requires i in run[|run| - 1].nodes && 0 < run[|run| - 1].nodes[i].raft.baseElectionTimeout
    ensures RunWithRestarts(decode, run + [Reboot(run[|run| - 1], i)])
  {
    var s := run[|run| - 1];
    assert RestartStep(s, Reboot(s, i), i, 0);
    Extend(decode, run, Reboot(s, i));
  }

  /**
   Any run in which a candidate has before it an append of its own term and a vote request of that term can go on
   so that the candidate, which voted for itself, grants the vote of the term to the requester.
   */
  lemma RestartMayVoteTwice(decode: Decoder, run: seq<State>, i: Id, m: Message, q: Message) returns (run': seq<State>)
    requires RunWithRestarts(decode, run)
    requires var s := run[|run| - 1];
             && i in s.nodes && s.nodes[i].raft.role == Candidate && m in s.net && q in s.net && m.to == q.to == i
             && m.AppendEntries? && m.term == s.nodes[i].raft.currentTerm
             && q.RequestVote? && !q.isPreVote && q.term == s.nodes[i].raft.currentTerm
    ensures RunWithRestarts(decode, run') && run < run'
    ensures RequestVoteResp(i, q.from, q.term, false, false) in run'[|run'| - 1].net
  {
    var s := run[|run| - 1];
    var ps := RunFair(decode, run);
    assert FairAt(run, ps, |run| - 1);
    assert VoterSettled(s.nodes.Keys, ps[|run| - 1], i, s.nodes[i]);
    LoserForgets(decode, s.nodes[i], m, 0);
    Goes(decode, run, i, Receive(m));
    var s1 := After(decode, s, i, Receive(m));
    Reboots(decode, run + [s1], i);
    var s2 := Reboot(s1, i);
    RestartedGrants(decode, s1.nodes[i], 0, q, 0);
    Goes(decode, run + [s1] + [s2], i, Receive(q));
    run' := run + [s1] + [s2] + [After(decode, s2, i, Receive(q))];
  }
}
