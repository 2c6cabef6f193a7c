/**
 What every step keeps about elections when nodes may restart. A node that loses an election and recognises the
 winner forgets its vote, saves the forgetting, and after a restart may vote again in the same term; yet the votes
 that made a winner are final, and no term is won twice.
 */
module Elections {
  import opened Types
  import opened RaftSpec
  import opened NodeSpec
  import opened Cluster
  import opened Electorate
  import opened Completeness
  import H = History

  datatype Ballot = Ballot(voter: Id, term: nat, candidate: Id)

  datatype Win = Win(leader: Id, quorum: set<Id>)

  /** The elections won and the votes cast so far. */
  datatype Poll = Poll(wins: map<nat, Win>, ballots: set<Ballot>)

  /** Before a term has a winner every vote in it is final; afterwards, those that made the winner are. */
  ghost predicate Locked(p: Poll, v: Id, t: nat) {
    t !in p.wins || v in p.wins[t].quorum
  }

  ghost predicate WinOk(ids: set<Id>, p: Poll, t: nat)
    requires t in p.wins
  {
    var w := p.wins[t];
    && w.leader in ids && w.quorum <= ids && |w.quorum| >= H.Quorum(ids)
    && forall v :: v in w.quorum ==> Ballot(v, t, w.leader) in p.ballots
  }

  ghost predicate PollOk(ids: set<Id>, p: Poll) {
    && (forall t {:trigger WinOk(ids, p, t)} :: t in p.wins ==> WinOk(ids, p, t))
    && (forall b :: b in p.ballots ==> b.voter in ids && b.candidate in ids)
    && (forall v, t: nat, c, d :: Ballot(v, t, c) in p.ballots && Ballot(v, t, d) in p.ballots && Locked(p, v, t) ==> c == d)
  }

  ghost predicate VoterOk(p: Poll, i: Id, r: RaftState) {
    && (forall t: nat, c :: Ballot(i, t, c) in p.ballots ==>
          t <= r.currentTerm && (t == r.currentTerm && Locked(p, i, t) ==> r.votedFor == c))
    && (r.votedFor != NONE ==> Ballot(i, r.currentTerm, r.votedFor) in p.ballots)
    && (r.role != Follower ==> r.votedFor == i)
    && (r.role == Candidate ==> forall v :: v in Granted(r.votes) ==> Ballot(v, r.currentTerm, i) in p.ballots)
    && (r.role == Candidate && r.currentTerm in p.wins ==> p.wins[r.currentTerm].leader != i)
    && (r.role == Leader ==> r.currentTerm in p.wins && p.wins[r.currentTerm].leader == i)
    && (forall t :: t in p.wins && p.wins[t].leader == i ==> t <= r.currentTerm)
  }

  ghost predicate SpokenOk(ids: set<Id>, p: Poll, nodes: map<Id, NodeState>, m: Message) {
    var preVote := (m.RequestVote? || m.RequestVoteResp?) && m.isPreVote;
    !preVote ==>
      && m.from in ids && m.from in nodes && m.term <= nodes[m.from].stored.term
      && (m.RequestVote? ==> m.from != m.to)
      && (m.RequestVoteResp? && !m.reject ==> Ballot(m.from, m.term, m.to) in p.ballots)
      && (m.AppendEntries? ==> m.from != m.to && m.term in p.wins && p.wins[m.term].leader == m.from)
  }

  ghost predicate VoterSettled(ids: set<Id>, p: Poll, i: Id, n: NodeState) {
    && Configured(ids, i, n.raft)
    && n.raft.msgs == [] && n.stored == HardState(n.raft.currentTerm, n.raft.votedFor)
    && VoterOk(p, i, n.raft)
  }

  ghost predicate Fair(s: State, p: Poll) {
    && PollOk(s.nodes.Keys, p)
    && (forall i {:trigger VoterSettled(s.nodes.Keys, p, i, s.nodes[i])} :: i in s.nodes ==> VoterSettled(s.nodes.Keys, p, i, s.nodes[i]))
    && (forall m {:trigger SpokenOk(s.nodes.Keys, p, s.nodes, m)} :: m in s.net ==> SpokenOk(s.nodes.Keys, p, s.nodes, m))
  }

  ghost predicate PollLe(p: Poll, q: Poll) {
    && p.ballots <= q.ballots
    && forall t :: t in p.wins ==> t in q.wins && q.wins[t] == p.wins[t]
  }

  /** The node leads the term, with the votes of the quorum. */
  ghost predicate Leads(s: State, t: nat, w: Win) {
    && w.leader in s.nodes && s.nodes[w.leader].raft.role == Leader && s.nodes[w.leader].raft.currentTerm == t
    && Granted(s.nodes[w.leader].raft.votes) == w.quorum
  }

  /** The poll goes on from p to q at state s: whoever has newly won leads in it. */
  ghost predicate PollNext(p: Poll, s: State, q: Poll) {
    PollLe(p, q) && forall t :: t in q.wins && t !in p.wins ==> Leads(s, t, q.wins[t])
  }

  // ---- One step

  /** The votes after node i has moved to state a: its current vote counts as cast. */
  ghost function Cast(p: Poll, i: Id, a: RaftState): set<Ballot> {
    if a.votedFor == NONE then p.ballots else p.ballots + {Ballot(i, a.currentTerm, a.votedFor)}
  }

  ghost function NextPoll(p: Poll, i: Id, r: RaftState, a: RaftState): Poll {
    Poll(if a.role == Leader && !StillLeads(r, a) then p.wins[a.currentTerm := Win(i, Granted(a.votes))] else p.wins,
         Cast(p, i, a))
  }

  /** A vote cast in this call was the voter's first in the term. */
  lemma CastIsFirst(p: Poll, i: Id, r: RaftState, a: RaftState, input: Input, c: Id)
    requires VoterOk(p, i, r) && r.id == i && Electoral(r, a, input)
    requires Locked(p, i, a.currentTerm) && a.votedFor != NONE
    requires Ballot(i, a.currentTerm, c) in p.ballots && c != NONE
    ensures c == a.votedFor
  {
  }

  /** Every vote a winner counted was cast for it in the term. */
  lemma CountedWereCast(ids: set<Id>, p: Poll, nodes: map<Id, NodeState>, i: Id, r: RaftState, a: RaftState, input: Input)
    requires VoterOk(p, i, r) && r.id == i && i != NONE && Electoral(r, a, input)
    requires input.Receive? ==> SpokenOk(ids, p, nodes, input.m) && input.m.to == i
    requires a.role != Follower && !StillLeads(r, a)
    ensures forall v :: v in Granted(a.votes) ==> Ballot(v, a.currentTerm, i) in Cast(p, i, a)
  {
    forall v | v in Granted(a.votes) ensures Ballot(v, a.currentTerm, i) in Cast(p, i, a) {
      if v != i {
        assert a.currentTerm == r.currentTerm && (v in Granted(r.votes) || VoteFrom(input, r, v));
      }
    }
  }

  /** No term is won twice. */
  lemma WinIsFirst(ids: set<Id>, p: Poll, nodes: map<Id, NodeState>, i: Id, r: RaftState, a: RaftState, input: Input)
    requires PollOk(ids, p) && Configured(ids, i, r) && i in ids && VoterOk(p, i, r) && Electoral(r, a, input)
    requires NONE !in ids
    requires input.Receive? ==> SpokenOk(ids, p, nodes, input.m) && input.m.to == i
    requires a.role == Leader && !StillLeads(r, a)
    ensures a.currentTerm !in p.wins
    ensures Granted(a.votes) <= ids && |Granted(a.votes)| >= H.Quorum(ids)
  {
    CountedWereCast(ids, p, nodes, i, r, a, input);
    DistinctSize(a.peers);
    assert QuorumSize(a) == H.Quorum(ids);
    forall v | v in Granted(a.votes) ensures v in ids {
      assert Ballot(v, a.currentTerm, i) in Cast(p, i, a);
    }
    if a.currentTerm in p.wins {
      var t := a.currentTerm;
      assert WinOk(ids, p, t);
      var w := p.wins[t];
      var v := QuorumsMeet(ids, Granted(a.votes), w.quorum);
      assert Ballot(v, t, w.leader) in p.ballots && Ballot(v, t, i) in Cast(p, i, a);
      if v == i {
        CastIsFirst(p, i, r, a, input, w.leader);
      }
      assert false;
    }
  }

  lemma NextPollOk(ids: set<Id>, p: Poll, nodes: map<Id, NodeState>, i: Id, r: RaftState, a: RaftState, input: Input)
    requires PollOk(ids, p) && Configured(ids, i, r) && i in ids && VoterOk(p, i, r) && Electoral(r, a, input)
    requires NONE !in ids
    requires input.Receive? ==> SpokenOk(ids, p, nodes, input.m) && input.m.to == i
    ensures PollOk(ids, NextPoll(p, i, r, a)) && PollLe(p, NextPoll(p, i, r, a))
  {
    var q := NextPoll(p, i, r, a);
    if a.role == Leader && !StillLeads(r, a) {
      WinIsFirst(ids, p, nodes, i, r, a, input);
      CountedWereCast(ids, p, nodes, i, r, a, input);
    }
    forall t | t in q.wins ensures WinOk(ids, q, t) {
      if t in p.wins {
        assert WinOk(ids, p, t);
      }
    }
    forall v, t: nat, c, d | Ballot(v, t, c) in q.ballots && Ballot(v, t, d) in q.ballots && Locked(q, v, t)
      ensures c == d
    {
      assert Locked(p, v, t);
      if Ballot(v, t, c) !in p.ballots && Ballot(v, t, d) in p.ballots {
        CastIsFirst(p, i, r, a, input, d);
      } else if Ballot(v, t, d) !in p.ballots && Ballot(v, t, c) in p.ballots {
        CastIsFirst(p, i, r, a, input, c);
      }
    }
  }

  /** The moving node still honours the votes that are final. */
  lemma VoterMoves(ids: set<Id>, p: Poll, nodes: map<Id, NodeState>, i: Id, r: RaftState, a: RaftState, input: Input)
    requires PollOk(ids, p) && Configured(ids, i, r) && i in ids && VoterOk(p, i, r) && Electoral(r, a, input)
    requires NONE !in ids
    requires input.Receive? ==> SpokenOk(ids, p, nodes, input.m) && input.m.to == i
    ensures VoterOk(NextPoll(p, i, r, a), i, a)
  {
    var q := NextPoll(p, i, r, a);
    if a.role == Leader && !StillLeads(r, a) {
      WinIsFirst(ids, p, nodes, i, r, a, input);
    } else if a.role == Candidate {
      CountedWereCast(ids, p, nodes, i, r, a, input);
    }
    forall t: nat, c | Ballot(i, t, c) in q.ballots
      ensures t <= a.currentTerm && (t == a.currentTerm && Locked(q, i, t) ==> a.votedFor == c)
    {
      if t == a.currentTerm && Locked(q, i, t) && Ballot(i, t, c) in p.ballots {
        assert Locked(p, i, t);
        FinalVoteStays(ids, p, nodes, i, r, a, input, c);
      }
    }
  }

  /** A final vote is not forgotten: only a loser forgets, and a loser's vote did not make the winner. */
  lemma FinalVoteStays(ids: set<Id>, p: Poll, nodes: map<Id, NodeState>, i: Id, r: RaftState, a: RaftState, input: Input, c: Id)
    requires PollOk(ids, p) && r.id == i && VoterOk(p, i, r) && Electoral(r, a, input) && NONE !in ids
    requires input.Receive? ==> SpokenOk(ids, p, nodes, input.m) && input.m.to == i
    requires Ballot(i, a.currentTerm, c) in p.ballots && Locked(p, i, a.currentTerm)
    ensures a.votedFor == c
  {
    if a.currentTerm in p.wins {
      assert WinOk(ids, p, a.currentTerm);
    }
  }

  lemma VoterWaits(p: Poll, q: Poll, i: Id, j: Id, r: RaftState, a: RaftState, n: RaftState)
    requires i != j && VoterOk(p, j, n) && q == NextPoll(p, i, r, a)
    requires a.role == Leader && !StillLeads(r, a) ==> a.currentTerm !in p.wins
    ensures VoterOk(q, j, n)
  {
    forall t: nat, c | Ballot(j, t, c) in q.ballots && Locked(q, j, t) ensures Locked(p, j, t) {}
  }

  lemma Named(s: State, p: Poll)
    requires Fair(s, p)
    ensures NONE !in s.nodes.Keys
  {
    forall i | i in s.nodes ensures i != NONE {
      assert VoterSettled(s.nodes.Keys, p, i, s.nodes[i]);
    }
  }

  lemma SaidIsOk(ids: set<Id>, q: Poll, nodes: map<Id, NodeState>, i: Id, a: RaftState, input: Input, m: Message)
    requires Says(a, input, m) && a.id == i && i in ids && Elements(a.peers) == ids - {i} && VoterOk(q, i, a)
    requires i in nodes && nodes[i].stored.term == a.currentTerm
    requires input.Receive? && input.m.RequestVote? && !input.m.isPreVote ==> input.m.from != NONE
    ensures SpokenOk(ids, q, nodes, m)
  {
    if m.RequestVote? || m.AppendEntries? {
      assert m.to in Elements(a.peers);
    }
  }

  lemma SaidBefore(ids: set<Id>, p: Poll, q: Poll, nodes: map<Id, NodeState>, nodes': map<Id, NodeState>, m: Message)
    requires SpokenOk(ids, p, nodes, m) && PollLe(p, q)
    requires forall j :: j in nodes ==> j in nodes' && nodes[j].stored.term <= nodes'[j].stored.term
    ensures SpokenOk(ids, q, nodes', m)
  {
  }

  /** The electoral part of a critical section: Raft moves, the pair is saved, the buffer is emptied. */
  lemma InstallFair(s: State, s': State, p: Poll, i: Id, input: Input, a: RaftState)
    requires Fair(s, p) && i in s.nodes
    requires input.Receive? ==> input.m in s.net && input.m.to == i
    requires Electoral(s.nodes[i].raft, a, input)
    requires i in s'.nodes && s'.nodes == s.nodes[i := s'.nodes[i]]
    requires SameVote(a, s'.nodes[i].raft) && s'.nodes[i].raft.msgs == []
    requires s'.nodes[i].stored == HardState(a.currentTerm, a.votedFor)
    requires s'.net <= s.net + Elements(a.msgs)
    ensures var q := NextPoll(p, i, s.nodes[i].raft, a);
            Fair(s', q) && PollLe(p, q)
  {
    var ids := s.nodes.Keys;
    var r := s.nodes[i].raft;
    var q := NextPoll(p, i, r, a);
    assert s'.nodes.Keys == ids;
    assert VoterSettled(ids, p, i, s.nodes[i]);
    Named(s, p);
    if input.Receive? {
      assert SpokenOk(ids, p, s.nodes, input.m);
    }
    NextPollOk(ids, p, s.nodes, i, r, a, input);
    VoterMoves(ids, p, s.nodes, i, r, a, input);
    forall j | j in s'.nodes ensures VoterSettled(s'.nodes.Keys, q, j, s'.nodes[j]) {
      if j != i {
        assert VoterSettled(ids, p, j, s.nodes[j]);
        if a.role == Leader && !StillLeads(r, a) {
          WinIsFirst(ids, p, s.nodes, i, r, a, input);
        }
        VoterWaits(p, q, i, j, r, a, s.nodes[j].raft);
      }
    }
    forall m | m in s'.net ensures SpokenOk(s'.nodes.Keys, q, s'.nodes, m) {
      if m in s.net {
        assert SpokenOk(ids, p, s.nodes, m);
        SaidBefore(ids, p, q, s.nodes, s'.nodes, m);
      } else {
        assert m in Elements(a.msgs);
        SaidIsOk(ids, q, s'.nodes, i, a, input, m);
      }
    }
  }

  /** The two states agree on everything an election depends on. */
  ghost predicate SameVote(a: RaftState, b: RaftState) {
    && b.id == a.id && b.peers == a.peers && b.baseElectionTimeout == a.baseElectionTimeout
    && b.currentTerm == a.currentTerm && b.votedFor == a.votedFor && b.role == a.role && b.votes == a.votes
  }
}
