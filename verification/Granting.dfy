/** The votes that nodes grant in their replies, when nodes may restart. */
module Granting {
  import opened Types
  import opened RaftSpec
  import opened Kv
  import opened NodeSpec
  import opened Cluster
  import opened Electorate
  import opened Invariant
  import opened Elections
  import opened ElectionMoves

  predicate IsGrant(m: Message) {
    m.RequestVoteResp? && !m.isPreVote && !m.reject
  }

  /** A node that has granted a vote holds on to it, as a follower, for as long as it stays in the term. */
  ghost predicate GrantStands(nodes: map<Id, NodeState>, m: Message) {
    IsGrant(m) ==>
      && m.from in nodes && m.term <= nodes[m.from].raft.currentTerm
      && (m.term == nodes[m.from].raft.currentTerm ==>
            nodes[m.from].raft.votedFor == m.to && nodes[m.from].raft.role == Follower)
  }

  ghost predicate Grants(s: State) {
    forall m {:trigger GrantStands(s.nodes, m)} :: m in s.net ==> GrantStands(s.nodes, m)
  }

  /** A call takes back no vote that was granted in a reply. */
  lemma GrantKept(r: RaftState, a: RaftState, input: Input, c: Id)
    requires Electoral(r, a, input) && r.votedFor == c != NONE && r.role == Follower && a.currentTerm == r.currentTerm
    ensures a.votedFor == c && a.role == Follower
  {
  }

  /** The vote a reply grants is the vote of a follower. */
  lemma GrantMade(r: RaftState, a: RaftState, input: Input, m: Message)
    requires Electoral(r, a, input) && m in a.msgs && IsGrant(m)
    requires input.Receive? && input.m.RequestVote? && !input.m.isPreVote ==> input.m.from != r.id
    ensures m.from == a.id && m.term == a.currentTerm && a.votedFor == m.to && a.role == Follower
  {
    assert Says(a, input, m);
  }

  lemma NodeStepGrants(decode: Decoder, s: State, s': State, i: Id, input: Input, draw: nat, p: Poll)
    requires Fair(s, p) && Grants(s) && NodeStep(decode, s, s', i, input, draw) && !Idle(s.nodes[i], input)
    ensures Grants(s')
  {
    var r, a := s.nodes[i].raft, Advance(s.nodes[i].raft, input, draw);
    assert VoterSettled(s.nodes.Keys, p, i, s.nodes[i]);
    if input.Receive? {
      assert SpokenOk(s.nodes.Keys, p, s.nodes, input.m);
    }
    AdvanceElectoral(r, input, draw);
    StepShape(decode, s, s', i, input, draw);
    FinishVote(decode, s.nodes[i].(raft := a), input);
    InstallGrants(s, s', i, input, a, p);
  }

  lemma InstallGrants(s: State, s': State, i: Id, input: Input, a: RaftState, p: Poll)
    requires Fair(s, p) && Grants(s) && i in s.nodes && Electoral(s.nodes[i].raft, a, input) && a.id == i
    requires input.Receive? && input.m.RequestVote? && !input.m.isPreVote ==> input.m.from != i
    requires i in s'.nodes && s'.nodes == s.nodes[i := s'.nodes[i]] && SameVote(a, s'.nodes[i].raft)
    requires s'.net <= s.net + Elements(a.msgs)
    ensures Grants(s')
  {
    forall m | m in s'.net ensures GrantStands(s'.nodes, m) {
      if m in s.net {
        assert GrantStands(s.nodes, m) && SpokenOk(s.nodes.Keys, p, s.nodes, m);
        if IsGrant(m) && m.from == i && m.term == a.currentTerm {
          Named(s, p);
          GrantKept(s.nodes[i].raft, a, input, m.to);
        }
      } else if IsGrant(m) {
        assert m in Elements(a.msgs);
        GrantMade(s.nodes[i].raft, a, input, m);
      }
    }
  }

  lemma NextGrants(decode: Decoder, s: State, s': State, p: Poll)
    requires Fair(s, p) && Grants(s) && NextOrRestart(decode, s, s')
    ensures Grants(s')
  {
    if i, draw :| RestartStep(s, s', i, draw) {
      assert VoterSettled(s.nodes.Keys, p, i, s.nodes[i]);
      forall m | m in s'.net ensures GrantStands(s'.nodes, m) { assert GrantStands(s.nodes, m); }
    } else if i, input, draw :| NodeStep(decode, s, s', i, input, draw) {
      if Idle(s.nodes[i], input) {
        assert s'.nodes == s.nodes && s'.net == s.net;
        forall m | m in s'.net ensures GrantStands(s'.nodes, m) { assert GrantStands(s.nodes, m); }
      } else {
        NodeStepGrants(decode, s, s', i, input, draw, p);
      }
    } else {
      var m :| PreVoteArrives(s, s', m);
      forall k | k in s'.net ensures GrantStands(s'.nodes, k) { assert k != m ==> GrantStands(s.nodes, k); }
    }
  }
}
