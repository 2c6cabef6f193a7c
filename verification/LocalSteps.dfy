/** Steps that leave the history as it is: clock ticks, stepping down, rejections, bookkeeping. */
module LocalSteps {
  import opened Types
  import opened RaftSpec
  import opened History
  import opened Extension

  /** Messages that make no real vote request. */
  ghost predicate NoRequests(outs: set<Message>) {
    forall m :: m in outs ==> !(m.RequestVote? && !m.isPreVote)
  }

  lemma LocalStep(nodes: map<Id, RaftState>, net: set<Message>, h: History, i: Id, r: RaftState, outs: set<Message>)
    requires Inv(nodes, net, h) && i in nodes
    requires nodes[i].currentTerm <= r.currentTerm
    requires NodeOk(nodes.Keys, h, net + outs, i, r)
    requires NoRequests(outs)
    requires forall m :: m in outs ==> MessageOk(nodes.Keys, h, m)
    ensures Inv(nodes[i := r], net + outs, h)
  {
    if r.currentTerm in h.elections {
      assert LeaderLogOk(h.elections, r.currentTerm);
    }
    assert NewVotesOk(nodes, h, i, r.currentTerm, h);
    StepKeepsInv(nodes, net, h, i, r, outs, h);
  }

  /** Two states that differ at most in timers, buffers and what has been applied. */
  ghost predicate SameView(r: RaftState, r': RaftState) {
    && r'.id == r.id && r'.peers == r.peers
    && r'.currentTerm == r.currentTerm && r'.votedFor == r.votedFor
    && r'.log == r.log && r'.commitIndex == r.commitIndex
    && r'.role == r.role && r'.votes == r.votes
    && r'.nextIndex == r.nextIndex && r'.matchIndex == r.matchIndex
    && (r.leaderActive ==> r'.leaderActive)
    && r'.lastApplied <= r'.commitIndex
  }

  lemma SameViewOk(members: set<Id>, h: History, net: set<Message>, outs: set<Message>, i: Id, r: RaftState, r': RaftState)
    requires AcksOk(h) && NodeOk(members, h, net, i, r)
    requires SameView(r, r') && NoRequests(outs)
    ensures NodeOk(members, h, net + outs, i, r')
  {
  }

  lemma IdleStep(nodes: map<Id, RaftState>, net: set<Message>, h: History, i: Id, r: RaftState, outs: set<Message>)
    requires Inv(nodes, net, h) && i in nodes
    requires SameView(nodes[i], r)
    requires NoRequests(outs)
    requires forall m :: m in outs ==> MessageOk(nodes.Keys, h, m)
    ensures Inv(nodes[i := r], net + outs, h)
  {
    assert NodeOk(nodes.Keys, h, net, i, nodes[i]);
    SameViewOk(nodes.Keys, h, net, outs, i, nodes[i], r);
    LocalStep(nodes, net, h, i, r, outs);
  }

  lemma KeepsRaise(h: History, v: Id, log: Log, limit: nat, limit': nat)
    requires AcksOk(h) && Keeps(h, v, log, limit) && limit <= limit'
    requires forall t: nat :: (v, t) in h.acks ==> t < limit
    ensures Keeps(h, v, log, limit')
  {
    forall t: nat, n: nat | t < limit' && Acked(h, v, t, n)
      ensures Prefix(h, t, n) <= log || Overridden(h, t, n, limit')
    {
      assert (v, t) in h.acks;
      if Overridden(h, t, n, limit) {
        var u: nat :| t < u < limit && u in h.elections && !(Prefix(h, t, n) <= h.elections[u].base);
      }
    }
  }

  lemma CommitRaise(members: set<Id>, h: History, limit: nat, limit': nat, log: Log, c: nat)
    requires CommitOk(members, h, limit, log, c) && limit <= limit'
    ensures CommitOk(members, h, limit', log, c)
  {
    if c > 0 {
      var t: nat, n: nat :| t <= limit && Chosen(members, h, t, n) && c <= n && Prefix(h, t, c) <= log;
    }
  }

  /** A node that moves to a later term as a follower. */
  lemma StepDownOk(members: set<Id>, h: History, net: set<Message>, i: Id, r: RaftState, term: nat, leader: Id, draw: nat)
    requires AcksOk(h) && NodeOk(members, h, net, i, r)
    requires term > r.currentTerm
    ensures NodeOk(members, h, net, i, BecomeFollower(r, term, leader, draw))
  {
    KeepsRaise(h, i, r.log, r.currentTerm + 1, term + 1);
    CommitRaise(members, h, r.currentTerm, term, r.log, r.commitIndex);
  }

  /** A node that recognises the leader of its own term, dropping any candidacy and its vote. */
  lemma RecogniseOk(members: set<Id>, h: History, net: set<Message>, i: Id, r: RaftState, m: Message, draw: nat)
    requires AcksOk(h) && NodeOk(members, h, net, i, r)
    requires m.AppendEntries? && m.term == r.currentTerm && m.from != NONE
    ensures NodeOk(members, h, net, i, Recognise(r, m, draw))
  {
    RecogniseLog(members, h, i, r, m, draw);
    RecogniseVotes(h, net, i, r, m, draw);
  }

  lemma RecogniseLog(members: set<Id>, h: History, i: Id, r: RaftState, m: Message, draw: nat)
    requires AcksOk(h) && ConfigOk(members, i, r) && LogOk(h, r) && AckOk(h, i, r)
    requires CommitOk(members, h, r.currentTerm, r.log, r.commitIndex) && r.lastApplied <= r.commitIndex
    requires m.AppendEntries? && m.term == r.currentTerm
    ensures var a := Recognise(r, m, draw);
            && ConfigOk(members, i, a) && LogOk(h, a) && AckOk(h, i, a) && a.role == Follower
            && CommitOk(members, h, a.currentTerm, a.log, a.commitIndex) && a.lastApplied <= a.commitIndex
  {
  }

  /** The vote may go, but the leader now known takes its place. */
  lemma RecogniseVotes(h: History, net: set<Message>, i: Id, r: RaftState, m: Message, draw: nat)
    requires VotesOk(h, i, r) && RequestsOk(net, i, r)
    requires m.AppendEntries? && m.term == r.currentTerm && m.from != NONE
    ensures VotesOk(h, i, Recognise(r, m, draw)) && RequestsOk(net, i, Recognise(r, m, draw))
  {
  }

  lemma StepDownStep(nodes: map<Id, RaftState>, net: set<Message>, h: History, i: Id, m: Message, draw: nat)
    requires Inv(nodes, net, h) && i in nodes
    ensures Inv(nodes[i := StepDown(nodes[i], m, draw)], net, h)
  {
    var r := StepDown(nodes[i], m, draw);
    assert NodeOk(nodes.Keys, h, net, i, nodes[i]);
    if r != nodes[i] {
      StepDownOk(nodes.Keys, h, net, i, nodes[i], m.term, if m.AppendEntries? then m.from else NONE, draw);
    }
    assert net + {} == net;
    LocalStep(nodes, net, h, i, r, {});
  }

  lemma RecogniseStep(nodes: map<Id, RaftState>, net: set<Message>, h: History, i: Id, m: Message, draw: nat)
    requires Inv(nodes, net, h) && i in nodes
    requires m.AppendEntries? && m.term == nodes[i].currentTerm && m.from != NONE
    ensures Inv(nodes[i := Recognise(nodes[i], m, draw)], net, h)
  {
    assert NodeOk(nodes.Keys, h, net, i, nodes[i]);
    RecogniseOk(nodes.Keys, h, net, i, nodes[i], m, draw);
    assert net + {} == net;
    LocalStep(nodes, net, h, i, Recognise(nodes[i], m, draw), {});
  }

  /** Recording a reply to a vote request. */
  lemma CountVoteStep(nodes: map<Id, RaftState>, net: set<Message>, h: History, i: Id, m: Message)
    requires Inv(nodes, net, h) && i in nodes && m in net
    requires m.RequestVoteResp? && !m.isPreVote && m.to == i && m.term == nodes[i].currentTerm
    ensures Inv(nodes[i := nodes[i].(votes := nodes[i].votes[m.from := !m.reject])], net, h)
  {
    var r := nodes[i].(votes := nodes[i].votes[m.from := !m.reject]);
    assert NodeOk(nodes.Keys, h, net, i, nodes[i]) && MessageOk(nodes.Keys, h, m);
    assert net + {} == net;
    LocalStep(nodes, net, h, i, r, {});
  }

  lemma MemberNamed(nodes: map<Id, RaftState>, net: set<Message>, h: History, j: Id)
    requires Inv(nodes, net, h) && j in nodes
    ensures j != NONE
  {
    assert NodeOk(nodes.Keys, h, net, j, nodes[j]);
  }

  lemma QuorumSizes(members: set<Id>, i: Id, r: RaftState)
    requires ConfigOk(members, i, r)
    ensures QuorumSize(r) == Quorum(members)
  {
    DistinctSize(r.peers);
  }

  /** What a leader sends to a peer is its log from nextIndex to the end. */
  lemma HeartbeatOk(members: set<Id>, h: History, net: set<Message>, i: Id, r: RaftState, p: Id)
    requires LeaderLogsOk(h.elections) && AcksOk(h) && NodeOk(members, h, net, i, r)
    requires r.role == Leader && p in members && p != i
    ensures MessageOk(members, h, HeartbeatFor(r, p))
  {
    assert LeaderLogOk(h.elections, r.currentTerm);
    assert LastLogIndex(r.log) == |r.log| - 1;
    var m := HeartbeatFor(r, p);
    assert m.prevLogIndex + |m.entries| == |r.log| - 1;
    assert m.entries == r.log[m.prevLogIndex + 1..];
  }

  ghost function Heartbeats(r: RaftState): set<Message> {
    set p | p in r.peers :: HeartbeatFor(r, p)
  }

  lemma HeartbeatsOk(members: set<Id>, h: History, net: set<Message>, i: Id, r: RaftState)
    requires LeaderLogsOk(h.elections) && AcksOk(h) && NodeOk(members, h, net, i, r)
    requires r.role == Leader
    ensures NoRequests(Heartbeats(r))
    ensures forall m :: m in Heartbeats(r) ==> MessageOk(members, h, m)
  {
    forall m | m in Heartbeats(r) ensures MessageOk(members, h, m) {
      var p :| p in r.peers && m == HeartbeatFor(r, p);
      assert p in Elements(r.peers);
      HeartbeatOk(members, h, net, i, r, p);
    }
  }
}
