/** Standing for election, granting a vote, winning: the steps that add votes and elections to the history. */
module ElectionSteps {
  import opened Types
  import opened RaftSpec
  import opened History
  import opened Completeness
  import opened Extension
  import opened LocalSteps

  ghost function AddVote(h: History, b: Vote, log: Log): History {
    if b in h.votes then h else h.(votes := h.votes[b := log])
  }

  lemma AddVoteExtends(h: History, b: Vote, log: Log)
    ensures Extends(h, AddVote(h, b, log), b.voter, b.term)
  {
  }

  lemma AddVoteKeeps(h: History, b: Vote, log: Log, v: Id, kept: Log, limit: nat)
    requires AcksOk(h) && Keeps(h, v, kept, limit)
    ensures AcksOk(AddVote(h, b, log)) && Keeps(AddVote(h, b, log), v, kept, limit)
  {
    var h' := AddVote(h, b, log);
    forall t: nat, n: nat | t < limit && Acked(h', v, t, n)
      ensures Prefix(h', t, n) <= kept || Overridden(h', t, n, limit)
    {
      assert Acked(h, v, t, n) && Prefix(h', t, n) == Prefix(h, t, n);
      if Overridden(h, t, n, limit) {
        var u: nat :| t < u < limit && u in h.elections && !(Prefix(h, t, n) <= h.elections[u].base);
      }
    }
  }

  lemma AddVoteCommit(members: set<Id>, h: History, b: Vote, log: Log, limit: nat, l: Log, c: nat)
    requires CommitOk(members, h, limit, l, c)
    ensures CommitOk(members, AddVote(h, b, log), limit, l, c)
  {
    AddVoteExtends(h, b, log);
    CommitGrows(members, h, AddVote(h, b, log), limit, l, c);
  }

  // ---- Standing

  ghost function VoteRequests(r: RaftState): set<Message> {
    set p | p in r.peers :: VoteRequestFor(r, p)
  }

  /** s is r with any timers, and without the memory of an active leader. */
  ghost predicate Restless(r: RaftState, s: RaftState) {
    SameView(r.(leaderActive := false), s)
  }

  lemma NominateOk(members: set<Id>, h: History, net: set<Message>, i: Id, r: RaftState, s: RaftState, draw: nat)
    requires HistoryOk(members, h) && NodeOk(members, h, net, i, r) && Restless(r, s)
    ensures var c := Nominate(s, draw);
            var h' := AddVote(h, Vote(i, c.currentTerm, i), r.log);
            AcksOk(h') && NodeOk(members, h', net + VoteRequests(c), i, c)
  {
    var c := Nominate(s, draw);
    var b := Vote(i, c.currentTerm, i);
    var h' := AddVote(h, b, r.log);
    KeepsRaise(h, i, r.log, r.currentTerm + 1, c.currentTerm + 1);
    AddVoteKeeps(h, b, r.log, i, r.log, c.currentTerm + 1);
    CommitRaise(members, h, r.currentTerm, c.currentTerm, r.log, r.commitIndex);
    AddVoteCommit(members, h, b, r.log, c.currentTerm, r.log, r.commitIndex);
    assert b !in h.votes;
    assert VotesOk(h', i, c);
    assert CandidateOk(h', i, c);
  }

  lemma NominateVotesOk(nodes: map<Id, RaftState>, h: History, i: Id, r: RaftState)
    requires HistoryOk(nodes.Keys, h) && i in nodes && LogOk(h, r) && VotesOk(h, i, r) && AckOk(h, i, r)
    ensures var h' := AddVote(h, Vote(i, r.currentTerm + 1, i), r.log);
            AcksOk(h') && NewVotesOk(nodes, h, i, r.currentTerm + 1, h')
  {
    var b := Vote(i, r.currentTerm + 1, i);
    var h' := AddVote(h, b, r.log);
    AddVoteKeeps(h, b, r.log, i, r.log, r.currentTerm + 1);
    assert VoteOk(nodes.Keys, h', b);
    assert forall a :: a in h.votes && a.voter == i ==> a == Vote(i, a.term, a.candidate) && a.term <= r.currentTerm;
    assert OneCandidate(h');
  }

  lemma NominateStep(nodes: map<Id, RaftState>, net: set<Message>, h: History, i: Id, s: RaftState, draw: nat)
    returns (h': History)
    requires Inv(nodes, net, h) && i in nodes && Restless(nodes[i], s)
    ensures var c := Nominate(s, draw);
            Inv(nodes[i := c], net + VoteRequests(c), h') && Extends(h, h', i, c.currentTerm)
  {
    var r := nodes[i];
    assert NodeOk(nodes.Keys, h, net, i, r);
    var c := Nominate(s, draw);
    var b := Vote(i, c.currentTerm, i);
    h' := AddVote(h, b, r.log);
    AddVoteExtends(h, b, r.log);
    NominateOk(nodes.Keys, h, net, i, r, s, draw);
    NominateVotesOk(nodes, h, i, r);
    assert NewElectionOk(nodes.Keys, h, h', c.currentTerm) by {
      if c.currentTerm in h.elections {
        assert LeaderLogOk(h.elections, c.currentTerm);
      }
    }
    assert OutsOk(nodes.Keys, h', i, VoteRequests(c)) by {
      forall p | p in r.peers ensures p != i { assert p in Elements(r.peers); }
    }
    StepKeepsInv(nodes, net, h, i, c, VoteRequests(c), h');
  }

  // ---- Voting

  lemma KeepsLower(h: History, v: Id, log: Log, term: nat)
    requires AcksOk(h) && Keeps(h, v, log, term + 1) && term !in h.elections
    ensures Keeps(h, v, log, term)
  {
    forall t: nat, n: nat | t < term && Acked(h, v, t, n)
      ensures Prefix(h, t, n) <= log || Overridden(h, t, n, term)
    {
      if Overridden(h, t, n, term + 1) {
        var u: nat :| t < u < term + 1 && u in h.elections && !(Prefix(h, t, n) <= h.elections[u].base);
        assert u < term;
      }
    }
  }

  /** A node that may grant a vote is a follower, and voted for no one else this term. */
  lemma GrantIsFirst(nodes: map<Id, RaftState>, net: set<Message>, h: History, i: Id, m: Message)
    requires Inv(nodes, net, h) && i in nodes && m in net
    requires m.RequestVote? && m.to == i && m.term <= nodes[i].currentTerm && CanGrant(nodes[i], m)
    ensures m.term == nodes[i].currentTerm && m.from in nodes && nodes[i].role == Follower
    ensures forall c :: Vote(i, m.term, c) in h.votes ==> c == m.from
  {
    var r := nodes[i];
    assert NodeOk(nodes.Keys, h, net, i, r) && MessageOk(nodes.Keys, h, m);
    forall c | Vote(i, m.term, c) in h.votes ensures c == m.from {
      assert VoteOk(nodes.Keys, h, Vote(i, m.term, c));
      MemberNamed(nodes, net, h, c);
    }
  }

  lemma GrantOk(members: set<Id>, h: History, net: set<Message>, i: Id, r: RaftState, c: Id, r': RaftState)
    requires HistoryOk(members, h) && NodeOk(members, h, net, i, r)
    requires r.role == Follower && c != i
    requires forall d :: Vote(i, r.currentTerm, d) in h.votes ==> d == c
    requires SameView(r.(votedFor := c), r')
    ensures var h' := AddVote(h, Vote(i, r.currentTerm, c), r.log);
            AcksOk(h') && NodeOk(members, h', net, i, r')
  {
    var b := Vote(i, r.currentTerm, c);
    var h' := AddVote(h, b, r.log);
    AddVoteKeeps(h, b, r.log, i, r.log, r.currentTerm + 1);
    AddVoteCommit(members, h, b, r.log, r.currentTerm, r.log, r.commitIndex);
    forall t: nat, d | Vote(i, t, d) in h'.votes
      ensures t <= r'.currentTerm && (t == r'.currentTerm ==> r'.votedFor == d)
    {
      assert Vote(i, t, d) in h.votes || Vote(i, t, d) == b;
    }
    assert VotesOk(h', i, r');
  }

  lemma GrantVotesOk(nodes: map<Id, RaftState>, net: set<Message>, h: History, i: Id, m: Message)
    requires Inv(nodes, net, h) && i in nodes && m in net
    requires m.RequestVote? && m.to == i && m.term <= nodes[i].currentTerm && CanGrant(nodes[i], m)
    ensures var r := nodes[i];
            var h' := AddVote(h, Vote(i, r.currentTerm, m.from), r.log);
            AcksOk(h') && NewVotesOk(nodes, h, i, r.currentTerm, h')
  {
    var r := nodes[i];
    GrantIsFirst(nodes, net, h, i, m);
    var b := Vote(i, r.currentTerm, m.from);
    var h' := AddVote(h, b, r.log);
    assert NodeOk(nodes.Keys, h, net, i, r);
    if b !in h.votes {
      if r.currentTerm !in h.elections {
        KeepsLower(h, i, r.log, r.currentTerm);
        AddVoteKeeps(h, b, r.log, i, r.log, r.currentTerm);
      }
      assert VoteOk(nodes.Keys, h', b);
      assert NodeOk(nodes.Keys, h, net, m.from, nodes[m.from]);
    }
    assert forall a :: a in h.votes && a.voter == i && a.term == r.currentTerm ==> a == Vote(i, a.term, a.candidate);
    assert OneCandidate(h');
  }

  lemma GrantStep(nodes: map<Id, RaftState>, net: set<Message>, h: History, i: Id, m: Message, r': RaftState)
    returns (h': History)
    requires Inv(nodes, net, h) && i in nodes && m in net
    requires m.RequestVote? && m.to == i && m.term <= nodes[i].currentTerm && CanGrant(nodes[i], m)
    requires SameView(nodes[i].(votedFor := m.from), r')
    ensures Inv(nodes[i := r'], net + {RequestVoteResp(i, m.from, r'.currentTerm, false, false)}, h')
    ensures Extends(h, h', i, r'.currentTerm)
  {
    var r := nodes[i];
    assert NodeOk(nodes.Keys, h, net, i, r) && MessageOk(nodes.Keys, h, m);
    GrantIsFirst(nodes, net, h, i, m);
    GrantVotesOk(nodes, net, h, i, m);
    var b := Vote(i, r.currentTerm, m.from);
    h' := AddVote(h, b, r.log);
    AddVoteExtends(h, b, r.log);
    GrantOk(nodes.Keys, h, net, i, r, m.from, r');
    assert NewElectionOk(nodes.Keys, h, h', r.currentTerm) by {
      if r.currentTerm in h.elections {
        assert LeaderLogOk(h.elections, r.currentTerm);
      }
    }
    var outs := {RequestVoteResp(i, m.from, r'.currentTerm, false, false)};
    SameViewOk(nodes.Keys, h', net, outs, i, r', r');
    assert OutsOk(nodes.Keys, h', i, outs);
    StepKeepsInv(nodes, net, h, i, r', outs, h');
  }

  // ---- Winning

  lemma OneWinner(h: History, v: Id, term: nat, c: Id, d: Id)
    requires OneCandidate(h) && Vote(v, term, c) in h.votes && Vote(v, term, d) in h.votes
    ensures c == d
  {
  }

  /** A candidate with a quorum is the first winner of its term. */
  lemma ElectionIsFresh(nodes: map<Id, RaftState>, net: set<Message>, h: History, i: Id)
    requires Inv(nodes, net, h) && i in nodes
    requires nodes[i].role == Candidate && HasQuorum(nodes[i])
    ensures nodes[i].currentTerm !in h.elections
    ensures Granted(nodes[i].votes) <= nodes.Keys && |Granted(nodes[i].votes)| >= Quorum(nodes.Keys)
  {
    var r := nodes[i];
    var term := r.currentTerm;
    assert NodeOk(nodes.Keys, h, net, i, r);
    QuorumSizes(nodes.Keys, i, r);
    forall v | v in Granted(r.votes) ensures v in nodes.Keys {
      assert VoteOk(nodes.Keys, h, Vote(v, term, i));
    }
    if term in h.elections {
      assert ElectionOk(nodes.Keys, h, term);
      var v := QuorumsMeet(nodes.Keys, Granted(r.votes), h.elections[term].ballots.Keys);
      OneWinner(h, v, term, i, h.elections[term].leader);
      assert false;
    }
  }

  /** The history in which e is the election of the term, its leader having acknowledged its own log. */
  ghost function Lead(h: History, term: nat, e: Election): History
    requires |e.log| > 0
  {
    h.(elections := h.elections[term := e], acks := h.acks[(e.leader, term) := |e.log| - 1])
  }

  lemma LeadExtends(h: History, term: nat, e: Election)
    requires AcksOk(h) && |e.log| > 0
    requires term in h.elections ==>
               var d := h.elections[term];
               e.leader == d.leader && e.ballots == d.ballots && e.base == d.base && d.log <= e.log
    ensures Extends(h, Lead(h, term, e), e.leader, term) && AcksOk(Lead(h, term, e))
  {
    var h' := Lead(h, term, e);
    forall v, t: nat | (v, t) in h'.acks ensures t in h'.elections && h'.acks[(v, t)] < |h'.elections[t].log| {
      if (v, t) != (e.leader, term) {
        assert (v, t) in h.acks;
      }
    }
  }

  ghost function Won(h: History, i: Id, r: RaftState): Election
    requires forall v :: v in Granted(r.votes) ==> Vote(v, r.currentTerm, i) in h.votes
  {
    Election(i, map v | v in Granted(r.votes) :: h.votes[Vote(v, r.currentTerm, i)], r.log, Promote(r).log)
  }

  /** Appending an entry of the leader's term to a log keeps it rooted. */
  lemma AppendRooted(elections: map<nat, Election>, log: Log, e: Entry)
    requires Rooted(elections, log) && e.term in elections && log + [e] <= elections[e.term].log
    ensures Rooted(elections, log + [e])
  {
    var log' := log + [e];
    forall k | 1 <= k < |log'| ensures RootedAt(elections, log', k) {
      if k < |log| {
        assert RootedAt(elections, log, k);
        assert log'[..k + 1] == log[..k + 1];
      } else {
        assert log'[..k + 1] == log';
      }
    }
  }

  /** The log of a leader of the term, extended by one entry of the term, remains one. */
  lemma LedLogOk(es: map<nat, Election>, es': map<nat, Election>, term: nat, log: Log, e: Entry)
    requires ElectionsLe(es, es') && Rooted(es, log) && Numbered(log) && Ascending(log)
    requires e.term == term && e.index == |log|
    requires term in es' && es'[term].log == log + [e]
    requires 0 < |es'[term].base| <= |log| && es'[term].base <= log
    requires forall k :: 0 <= k < |es'[term].base| ==> log[k].term < term
    requires forall k :: |es'[term].base| <= k < |log| ==> log[k].term == term
    ensures LeaderLogOk(es', term)
  {
    RootedGrows(es, es', log);
    AppendRooted(es', log, e);
  }

  lemma WonBallots(members: set<Id>, h: History, net: set<Message>, i: Id, r: RaftState, h': History)
    requires HistoryOk(members, h) && NodeOk(members, h, net, i, r)
    requires r.role == Candidate && r.currentTerm !in h.elections
    requires Granted(r.votes) <= members && |Granted(r.votes)| >= Quorum(members)
    requires h' == Lead(h, r.currentTerm, Won(h, i, r))
    ensures AcksOk(h') && ElectionOk(members, h', r.currentTerm)
  {
    var e := Won(h, i, r);
    LeadExtends(h, r.currentTerm, e);
    assert e.ballots.Keys == Granted(r.votes);
    forall v | v in e.ballots
      ensures Vote(v, r.currentTerm, i) in h'.votes && Rooted(h'.elections, e.ballots[v])
      ensures AtLeastAsRecent(e.base, e.ballots[v]) && Keeps(h', v, e.ballots[v], r.currentTerm)
    {
      assert VoteOk(members, h, Vote(v, r.currentTerm, i));
      RootedGrows(h.elections, h'.elections, e.ballots[v]);
      KeepsGrows(h, h', i, r.currentTerm, v, e.ballots[v], r.currentTerm);
    }
  }

  /** A log that grows keeps what it kept, and the whole of the leader log it is part of. */
  lemma LongerKeeps(h: History, h': History, i: Id, term: nat, log: Log, log': Log)
    requires AcksOk(h) && AcksOk(h') && Extends(h, h', i, term)
    requires Keeps(h, i, log, term + 1) && log <= log'
    requires term in h'.elections && h'.elections[term].log == log'
    ensures Keeps(h', i, log', term + 1)
  {
    forall t: nat, n: nat | t < term + 1 && Acked(h', i, t, n)
      ensures Prefix(h', t, n) <= log' || Overridden(h', t, n, term + 1)
    {
      if t == term {
        PrefixesOfLog(h', term, n, n);
      } else {
        assert Acked(h, i, t, n);
        PrefixGrows(h, h', t, n);
        if Overridden(h, t, n, term + 1) {
          OverriddenGrows(h, h', t, n, term + 1);
        }
      }
    }
  }

  lemma PromoteLeaderOk(members: set<Id>, h: History, i: Id, r: RaftState)
    requires ConfigOk(members, i, r) && LastLogIndex(r.log) == |r.log| - 1
    requires r.currentTerm in h.elections
    requires h.elections[r.currentTerm].leader == i && h.elections[r.currentTerm].log == Promote(r).log
    requires Acked(h, i, r.currentTerm, |Promote(r).log| - 1)
    ensures LeaderOk(members, h, i, Promote(r))
  {
    forall p | p in members && p != i ensures p in r.peers { assert p in Elements(r.peers); }
  }

  lemma PromoteOk(members: set<Id>, h: History, net: set<Message>, i: Id, r: RaftState, h': History)
    requires LeaderLogsOk(h.elections) && AcksOk(h) && NodeOk(members, h, net, i, r)
    requires r.role == Candidate && r.currentTerm !in h.elections
    requires h' == Lead(h, r.currentTerm, Won(h, i, r)) && AcksOk(h') && Extends(h, h', i, r.currentTerm)
    requires LeaderLogOk(h'.elections, r.currentTerm)
    ensures NodeOk(members, h', net, i, Promote(r))
  {
    var l := Promote(r);
    RootedNumbered(h.elections, r.log);
    LongerKeeps(h, h', i, r.currentTerm, r.log, l.log);
    CommitGrows(members, h, h', r.currentTerm, r.log, r.commitIndex);
    CommitLonger(members, h', r.currentTerm, r.log, l.log, r.commitIndex);
    PromoteLeaderOk(members, h', i, r);
    assert VotesOk(h', i, l);
  }

  lemma PromoteStep(nodes: map<Id, RaftState>, net: set<Message>, h: History, i: Id) returns (h': History)
    requires Inv(nodes, net, h) && i in nodes
    requires nodes[i].role == Candidate && HasQuorum(nodes[i])
    ensures var l := Promote(nodes[i]);
            Inv(nodes[i := l], net + Heartbeats(l), h') && Extends(h, h', i, l.currentTerm)
  {
    var r := nodes[i];
    assert NodeOk(nodes.Keys, h, net, i, r);
    ElectionIsFresh(nodes, net, h, i);
    var l := Promote(r);
    h' := Lead(h, r.currentTerm, Won(h, i, r));
    LeadExtends(h, r.currentTerm, Won(h, i, r));
    RootedNumbered(h.elections, r.log);
    RootedAscending(h.elections, r.log);
    LedLogOk(h.elections, h'.elections, r.currentTerm, r.log, l.log[|r.log|]);
    WonBallots(nodes.Keys, h, net, i, r, h');
    PromoteOk(nodes.Keys, h, net, i, r, h');
    LeaderStep(nodes, net, h, i, l, h');
  }

  /** A leader that has just extended its log, at election or later, and tells its peers. */
  lemma LeaderStep(nodes: map<Id, RaftState>, net: set<Message>, h: History, i: Id, l: RaftState, h': History)
    requires Inv(nodes, net, h) && i in nodes && l.role == Leader && nodes[i].currentTerm == l.currentTerm
    requires Extends(h, h', i, l.currentTerm) && AcksOk(h') && h'.votes == h.votes
    requires l.currentTerm in h'.elections && NewElectionOk(nodes.Keys, h, h', l.currentTerm)
    requires forall t :: t in h'.elections && t != l.currentTerm ==> t in h.elections && h'.elections[t] == h.elections[t]
    requires NodeOk(nodes.Keys, h', net, i, l)
    ensures Inv(nodes[i := l], net + Heartbeats(l), h')
  {
    LeaderLogsGrow(h.elections, h'.elections, l.currentTerm);
    HeartbeatsOk(nodes.Keys, h', net, i, l);
    SameViewOk(nodes.Keys, h', net, Heartbeats(l), i, l, l);
    assert NewVotesOk(nodes, h, i, l.currentTerm, h');
    assert OutsOk(nodes.Keys, h', i, Heartbeats(l));
    StepKeepsInv(nodes, net, h, i, l, Heartbeats(l), h');
  }

  lemma LeaderLogsGrow(es: map<nat, Election>, es': map<nat, Election>, term: nat)
    requires LeaderLogsOk(es) && ElectionsLe(es, es')
    requires forall t :: t in es' && t != term ==> t in es && es'[t] == es[t]
    requires term in es' && LeaderLogOk(es', term)
    ensures LeaderLogsOk(es')
  {
    forall t | t in es' ensures LeaderLogOk(es', t) {
      if t != term {
        assert LeaderLogOk(es, t);
        LeaderLogGrows(es, es', t);
      }
    }
  }
}
