/** A step by one node extends the history; everything the other nodes rely on survives. */
module Extension {
  import opened Types
  import opened RaftSpec
  import opened History
  import opened Completeness

  lemma RootedGrows(es: map<nat, Election>, es': map<nat, Election>, log: Log)
    requires ElectionsLe(es, es') && Rooted(es, log)
    ensures Rooted(es', log)
  {
    forall k | 1 <= k < |log| ensures RootedAt(es', log, k) {
      assert RootedAt(es, log, k);
      var t := log[k].term;
      assert t in es && es[t].log <= es'[t].log;
    }
  }

  lemma LeaderLogGrows(es: map<nat, Election>, es': map<nat, Election>, t: nat)
    requires ElectionsLe(es, es') && t in es && LeaderLogOk(es, t) && es'[t] == es[t]
    ensures LeaderLogOk(es', t)
  {
    RootedGrows(es, es', es[t].log);
  }

  lemma PrefixGrows(h: History, h': History, t: nat, n: nat)
    requires Le(h, h') && t in h.elections && n < |h.elections[t].log|
    ensures t in h'.elections && n < |h'.elections[t].log| && Prefix(h', t, n) == Prefix(h, t, n)
  {
  }

  lemma OverriddenGrows(h: History, h': History, t: nat, n: nat, limit: nat)
    requires Le(h, h') && t in h.elections && n < |h.elections[t].log|
    requires Overridden(h, t, n, limit)
    ensures t in h'.elections && n < |h'.elections[t].log| && Overridden(h', t, n, limit)
  {
    PrefixGrows(h, h', t, n);
    var u: nat :| t < u < limit && u in h.elections && !(Prefix(h, t, n) <= h.elections[u].base);
    assert u in h'.elections && h'.elections[u].base == h.elections[u].base;
  }

  lemma KeepsGrows(h: History, h': History, i: Id, term: nat, v: Id, log: Log, limit: nat)
    requires AcksOk(h) && AcksOk(h') && Extends(h, h', i, term)
    requires Keeps(h, v, log, limit)
    requires v != i || limit <= term
    ensures Keeps(h', v, log, limit)
  {
    forall t: nat, n: nat | t < limit && Acked(h', v, t, n)
      ensures Prefix(h', t, n) <= log || Overridden(h', t, n, limit)
    {
      assert (v, t) != (i, term);
      assert Acked(h, v, t, n);
      PrefixGrows(h, h', t, n);
      if Overridden(h, t, n, limit) {
        OverriddenGrows(h, h', t, n, limit);
      }
    }
  }

  lemma AckedGrows(h: History, h': History, v: Id, t: nat, n: nat)
    requires Le(h, h') && Acked(h, v, t, n)
    ensures Acked(h', v, t, n)
  {
  }

  lemma ChosenGrows(members: set<Id>, h: History, h': History, t: nat, n: nat)
    requires Le(h, h') && Chosen(members, h, t, n)
    ensures Chosen(members, h', t, n)
  {
    forall v | v in AckSet(members, h, t, n) ensures v in AckSet(members, h', t, n) {
      AckedGrows(h, h', v, t, n);
    }
    SubsetSize(AckSet(members, h, t, n), AckSet(members, h', t, n));
  }

  lemma CommitGrows(members: set<Id>, h: History, h': History, limit: nat, log: Log, c: nat)
    requires Le(h, h') && CommitOk(members, h, limit, log, c)
    ensures CommitOk(members, h', limit, log, c)
  {
    if c > 0 {
      var t: nat, n: nat :| t <= limit && Chosen(members, h, t, n) && c <= n && Prefix(h, t, c) <= log;
      ChosenGrows(members, h, h', t, n);
      PrefixGrows(h, h', t, c);
    }
  }

  lemma ElectionGrowsOk(members: set<Id>, h: History, h': History, i: Id, term: nat, t: nat)
    requires AcksOk(h) && AcksOk(h') && Extends(h, h', i, term)
    requires t in h.elections && ElectionOk(members, h, t)
    requires forall u: nat, c :: Vote(i, u, c) in h.votes ==> u <= term
    ensures t in h'.elections && ElectionOk(members, h', t)
  {
    var e := h.elections[t];
    forall v | v in e.ballots
      ensures Rooted(h'.elections, e.ballots[v]) && Keeps(h', v, e.ballots[v], t)
    {
      assert Vote(v, t, e.leader) in h.votes;
      RootedGrows(h.elections, h'.elections, e.ballots[v]);
      KeepsGrows(h, h', i, term, v, e.ballots[v], t);
    }
  }

  lemma VoteGrowsOk(members: set<Id>, h: History, h': History, i: Id, term: nat, b: Vote)
    requires AcksOk(h) && AcksOk(h') && Extends(h, h', i, term)
    requires b in h.votes && VoteOk(members, h, b)
    requires b.voter == i ==> b.term <= term
    ensures b in h'.votes && VoteOk(members, h', b)
  {
    RootedGrows(h.elections, h'.elections, h.votes[b]);
    if b.term !in h'.elections {
      KeepsGrows(h, h', i, term, b.voter, h.votes[b], b.term);
    }
  }

  lemma MessageGrowsOk(members: set<Id>, h: History, h': History, m: Message)
    requires Le(h, h') && MessageOk(members, h, m)
    ensures MessageOk(members, h', m)
  {
    if m.AppendEntries? {
      AppendGrowsOk(members, h, h', m);
    }
  }

  lemma AppendGrowsOk(members: set<Id>, h: History, h': History, m: Message)
    requires m.AppendEntries? && Le(h, h') && AppendOk(members, h, m)
    ensures AppendOk(members, h', m)
  {
    CommitGrows(members, h, h', m.term, h.elections[m.term].log, m.leaderCommit);
    CommitLonger(members, h', m.term, h.elections[m.term].log, h'.elections[m.term].log, m.leaderCommit);
  }

  lemma CommitLonger(members: set<Id>, h: History, limit: nat, log: Log, log': Log, c: nat)
    requires CommitOk(members, h, limit, log, c)
    requires c < |log'| && log[..c + 1] <= log'
    ensures CommitOk(members, h, limit, log', c)
  {
    if c > 0 {
      var t: nat, n: nat :| t <= limit && Chosen(members, h, t, n) && c <= n && Prefix(h, t, c) <= log;
      Nested(Prefix(h, t, c), log[..c + 1], log);
    }
  }

  /** A node that did not move keeps its invariant, given that any new vote for it respects its candidacy. */
  lemma BystanderOk(members: set<Id>, h: History, h': History, net: set<Message>, outs: set<Message>,
                    i: Id, term: nat, j: Id, r: RaftState)
    requires AcksOk(h) && AcksOk(h') && Extends(h, h', i, term) && i != j
    requires NodeOk(members, h, net, j, r)
    requires forall m :: m in outs && m.RequestVote? && !m.isPreVote ==> m.from == i
    requires Vote(i, term, j) in h'.votes && Vote(i, term, j) !in h.votes ==>
               && term <= r.currentTerm
               && (term == r.currentTerm && r.role == Candidate ==> AtLeastAsRecent(r.log, h'.votes[Vote(i, term, j)]))
    ensures NodeOk(members, h', net + outs, j, r)
  {
    RootedGrows(h.elections, h'.elections, r.log);
    KeepsGrows(h, h', i, term, j, r.log, r.currentTerm + 1);
    CommitGrows(members, h, h', r.currentTerm, r.log, r.commitIndex);
    BystanderVotes(h, h', i, term, j, r);
    BystanderLeader(members, h, h', i, term, j, r);
  }

  lemma BystanderVotes(h: History, h': History, i: Id, term: nat, j: Id, r: RaftState)
    requires Extends(h, h', i, term) && i != j
    requires VotesOk(h, j, r)
    requires Vote(i, term, j) in h'.votes && Vote(i, term, j) !in h.votes ==>
               && term <= r.currentTerm
               && (term == r.currentTerm && r.role == Candidate ==> AtLeastAsRecent(r.log, h'.votes[Vote(i, term, j)]))
    ensures VotesOk(h', j, r)
  {
    forall t: nat, c | Vote(j, t, c) in h'.votes ensures Vote(j, t, c) in h.votes {}
    forall v, t: nat | Vote(v, t, j) in h'.votes ensures Vote(v, t, j) in h.votes || (v == i && t == term) {}
  }

  lemma BystanderLeader(members: set<Id>, h: History, h': History, i: Id, term: nat, j: Id, r: RaftState)
    requires Extends(h, h', i, term) && i != j
    requires LeaderOk(members, h, j, r) && CandidateOk(h, j, r)
    ensures LeaderOk(members, h', j, r) && CandidateOk(h', j, r)
  {
    if r.role == Leader {
      AckedGrows(h, h', j, r.currentTerm, |r.log| - 1);
      forall p | p in members && p != j && Get(r.matchIndex, p) != 0
        ensures Acked(h', p, r.currentTerm, Get(r.matchIndex, p))
      {
        AckedGrows(h, h', p, r.currentTerm, Get(r.matchIndex, p));
      }
    }
  }

  ghost predicate NewElectionOk(members: set<Id>, h: History, h': History, term: nat)
    requires AcksOk(h')
  {
    && (term in h'.elections ==> LeaderLogOk(h'.elections, term))
    && (term in h'.elections && term !in h.elections ==> ElectionOk(members, h', term))
  }

  ghost predicate NewVotesOk(nodes: map<Id, RaftState>, h: History, i: Id, term: nat, h': History)
    requires AcksOk(h')
  {
    && OneCandidate(h')
    && forall b :: b in h'.votes && b !in h.votes ==>
         && VoteOk(nodes.Keys, h', b)
         && (b.candidate != i ==>
              var c := nodes[b.candidate];
              && term <= c.currentTerm
              && (term == c.currentTerm && c.role == Candidate ==> AtLeastAsRecent(c.log, h'.votes[b])))
  }

  ghost predicate OutsOk(members: set<Id>, h: History, i: Id, outs: set<Message>) {
    forall m :: m in outs ==> MessageOk(members, h, m) && (m.RequestVote? && !m.isPreVote ==> m.from == i)
  }

  /** What the moving node must show for the cluster's invariant to hold after its step. */
  ghost predicate StepOk(nodes: map<Id, RaftState>, net: set<Message>, h: History,
                         i: Id, r: RaftState, outs: set<Message>, h': History) {
    && i in nodes && nodes[i].currentTerm <= r.currentTerm
    && Extends(h, h', i, r.currentTerm)
    && AcksOk(h')
    && NewElectionOk(nodes.Keys, h, h', r.currentTerm)
    && NewVotesOk(nodes, h, i, r.currentTerm, h')
    && NodeOk(nodes.Keys, h', net + outs, i, r)
    && OutsOk(nodes.Keys, h', i, outs)
  }

  lemma StepKeepsHistory(nodes: map<Id, RaftState>, net: set<Message>, h: History,
                         i: Id, r: RaftState, outs: set<Message>, h': History)
    requires Inv(nodes, net, h) && StepOk(nodes, net, h, i, r, outs, h')
    ensures HistoryOk(nodes.Keys, h')
  {
    var term := r.currentTerm;
    var members := nodes.Keys;
    assert NodeOk(members, h, net, i, nodes[i]);
    forall t | t in h'.elections ensures LeaderLogOk(h'.elections, t) {
      if t != term {
        assert LeaderLogOk(h.elections, t);
        LeaderLogGrows(h.elections, h'.elections, t);
      }
    }
    forall t | t in h'.elections ensures ElectionOk(members, h', t) {
      if t in h.elections {
        assert ElectionOk(members, h, t);
        ElectionGrowsOk(members, h, h', i, term, t);
      }
    }
    forall b | b in h'.votes ensures VoteOk(members, h', b) {
      if b in h.votes {
        assert VoteOk(members, h, b);
        assert b == Vote(b.voter, b.term, b.candidate);
        VoteGrowsOk(members, h, h', i, term, b);
      }
    }
  }

  lemma StepKeepsInv(nodes: map<Id, RaftState>, net: set<Message>, h: History,
                     i: Id, r: RaftState, outs: set<Message>, h': History)
    requires Inv(nodes, net, h) && StepOk(nodes, net, h, i, r, outs, h')
    ensures Inv(nodes[i := r], net + outs, h')
  {
    var term := r.currentTerm;
    var nodes' := nodes[i := r];
    assert nodes'.Keys == nodes.Keys;
    StepKeepsHistory(nodes, net, h, i, r, outs, h');
    forall j | j in nodes' ensures NodeOk(nodes'.Keys, h', net + outs, j, nodes'[j]) {
      if j != i {
        assert NodeOk(nodes.Keys, h, net, j, nodes[j]);
        BystanderOk(nodes.Keys, h, h', net, outs, i, term, j, nodes[j]);
      }
    }
    forall m | m in net + outs ensures MessageOk(nodes'.Keys, h', m) {
      if m !in outs {
        assert MessageOk(nodes.Keys, h, m);
        MessageGrowsOk(nodes.Keys, h, h', m);
      }
    }
  }
}
