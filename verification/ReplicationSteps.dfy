/** Accepting and rejecting appends, acknowledging, committing, proposing. */
module ReplicationSteps {
  import opened Types
  import opened RaftSpec
  import opened History
  import opened Completeness
  import opened Extension
  import opened LocalSteps
  import opened ElectionSteps

  // ---- What the merge loop computes

  /**
   Merging a stretch of another log that agrees with this one up to where the stretch begins either
   changes nothing, when the stretch is already there, or leaves exactly the other log up to its end.
   */
  lemma {:induction false} MergeResult(es: map<nat, Election>, log: Log, led: Log, idx: nat, entries: seq<Entry>)
    requires Rooted(es, log) && Rooted(es, led) && Numbered(log)
    requires 1 <= idx <= |log| && idx + |entries| <= |led|
    requires log[..idx] == led[..idx] && entries == led[idx..idx + |entries|]
    ensures Merge(log, idx, entries) == if led[..idx + |entries|] <= log then log else led[..idx + |entries|]
    decreases |entries|
  {
    var all := led[..idx + |entries|];
    if entries == [] {
    } else if idx == |log| {
      assert log + entries == all;
    } else {
      assert entries[0] == led[idx];
      if log[idx].term != led[idx].term {
        assert log[..idx] + entries == all;
        assert all[idx] != log[idx];
      } else {
        RootedAgree(es, log, led, idx);
        assert entries[1..] == led[idx + 1..idx + |entries|];
        MergeResult(es, log, led, idx + 1, entries[1..]);
      }
    }
  }

  /** The leader's log through the last entry of an append. */
  ghost function Led(h: History, m: Message): Log
    requires m.AppendEntries? && Carries(h, m)
  {
    h.elections[m.term].log[..m.prevLogIndex + |m.entries| + 1]
  }

  ghost predicate Accepted(h: History, r: RaftState, m: Message, log: Log) {
    && m.AppendEntries? && Carries(h, m) && m.term == r.currentTerm
    && log == if Led(h, m) <= r.log then r.log else Led(h, m)
  }

  lemma MergedLog(h: History, r: RaftState, m: Message)
    requires LeaderLogsOk(h.elections) && LogOk(h, r)
    requires m.AppendEntries? && Carries(h, m) && m.term == r.currentTerm
    requires Consistent(r.log, m)
    ensures Accepted(h, r, m, Merge(r.log, m.prevLogIndex + 1, m.entries))
  {
    var led := h.elections[m.term].log;
    var prev := m.prevLogIndex;
    assert Rooted(h.elections, led) by { assert LeaderLogOk(h.elections, m.term); }
    RootedNumbered(h.elections, r.log);
    ConsistentAgree(h.elections, r.log, led, m);
    MergeResult(h.elections, r.log, led, prev + 1, m.entries);
  }

  /** The consistency check succeeds only where the two logs agree. */
  lemma ConsistentAgree(es: map<nat, Election>, log: Log, led: Log, m: Message)
    requires Rooted(es, log) && Rooted(es, led) && LastLogIndex(log) == |log| - 1
    requires m.AppendEntries? && Consistent(log, m)
    requires m.prevLogIndex < |led| && m.prevLogTerm == led[m.prevLogIndex].term
    ensures m.prevLogIndex < |log| && log[..m.prevLogIndex + 1] == led[..m.prevLogIndex + 1]
  {
    RootedAgree(es, log, led, m.prevLogIndex);
  }

  /** A follower's log after an accepted append is a prefix of its leader's log and reaches the append's end. */
  lemma AcceptedIsLed(h: History, r: RaftState, m: Message, log: Log)
    requires LeaderLogsOk(h.elections) && LogOk(h, r) && Accepted(h, r, m, log)
    ensures Led(h, m) <= log <= h.elections[m.term].log
    ensures |log| > 1 && LastLogIndex(log) == |log| - 1
  {
    var last := m.prevLogIndex + |m.entries|;
    var e := h.elections[m.term];
    assert LeaderLogOk(h.elections, m.term);
    if log == r.log {
      RootedNumbered(h.elections, log);
      RootedAscending(h.elections, log);
      assert log[last] == e.log[last] && log[last].term == m.term;
      RootedWhole(h.elections, log);
    } else {
      assert log[|log| - 1] == e.log[|log| - 1];
    }
  }

  /** An accepted append never shortens what the follower already acknowledged in the term. */
  lemma AcceptedAck(h: History, i: Id, r: RaftState, m: Message, log: Log)
    requires AcksOk(h) && AckOk(h, i, r) && Accepted(h, r, m, log)
    ensures (i, m.term) in h.acks ==> h.acks[(i, m.term)] < |log|
  {
    if (i, m.term) in h.acks {
      var n := h.acks[(i, m.term)];
      assert Acked(h, i, m.term, n);
      assert Prefix(h, m.term, n) <= r.log;
      if n >= m.prevLogIndex + |m.entries| {
        Nested(Led(h, m), Prefix(h, m.term, n), h.elections[m.term].log);
      }
    }
  }

  ghost function Acknowledge(h: History, i: Id, term: nat, n: nat): History {
    h.(acks := h.acks[(i, term) := n])
  }

  lemma AcknowledgeExtends(h: History, i: Id, term: nat, n: nat)
    requires AcksOk(h) && term in h.elections && n < |h.elections[term].log|
    requires (i, term) in h.acks ==> h.acks[(i, term)] <= n
    ensures Extends(h, Acknowledge(h, i, term, n), i, term) && AcksOk(Acknowledge(h, i, term, n))
  {
    var h' := Acknowledge(h, i, term, n);
    forall v, t: nat | (v, t) in h'.acks ensures t in h'.elections && h'.acks[(v, t)] < |h'.elections[t].log| {
      if (v, t) != (i, term) {
        assert (v, t) in h.acks;
      }
    }
  }

  /** The follower loses an acknowledged prefix only to a leader that started without it. */
  lemma AcceptedKeeps(h: History, i: Id, r: RaftState, m: Message, log: Log)
    requires LeaderLogsOk(h.elections) && AcksOk(h) && AckOk(h, i, r) && Accepted(h, r, m, log)
    requires 0 < |log| && Led(h, m) <= log <= h.elections[m.term].log
    requires (i, m.term) in h.acks ==> h.acks[(i, m.term)] < |log|
    ensures var h' := Acknowledge(h, i, m.term, |log| - 1);
            AcksOk(h') && Keeps(h', i, log, m.term + 1)
  {
    var term := m.term;
    var h' := Acknowledge(h, i, term, |log| - 1);
    AcknowledgeExtends(h, i, term, |log| - 1);
    var e := h.elections[term];
    BaseOfLog(h.elections, term);
    Nested(e.base, Led(h, m), e.log);
    forall t: nat, n: nat | t < term + 1 && Acked(h', i, t, n)
      ensures Prefix(h', t, n) <= log || Overridden(h', t, n, term + 1)
    {
      if t == term {
        Nested(Prefix(h, term, n), log, e.log);
      } else {
        assert Acked(h, i, t, n);
        PrefixGrows(h, h', t, n);
        if Overridden(h, t, n, term + 1) {
          OverriddenGrows(h, h', t, n, term + 1);
        } else {
          assert Prefix(h, t, n) <= e.base;
        }
      }
    }
  }

  /** What the follower had committed is untouched by an accepted append. */
  lemma CommitSurvives(members: set<Id>, h: History, r: RaftState, m: Message, log: Log)
    requires HistoryOk(members, h) && LogOk(h, r) && Accepted(h, r, m, log)
    requires CommitOk(members, h, r.currentTerm, r.log, r.commitIndex)
    ensures r.commitIndex < |log| && r.log[..r.commitIndex + 1] == log[..r.commitIndex + 1]
  {
    var c := r.commitIndex;
    var e := h.elections[m.term];
    CommittedHeld(members, h, m.term, r.log, c);
    if log != r.log {
      if c >= |log| {
        Nested(Led(h, m), r.log[..c + 1], e.log);
        assert false;
      }
      Nested(r.log[..c + 1], log, e.log);
    }
  }

  /** The commit index never falls, and stays within what is known to be chosen. */
  lemma AcceptedCommit(members: set<Id>, h: History, r: RaftState, m: Message, log: Log)
    requires HistoryOk(members, h) && LogOk(h, r) && Accepted(h, r, m, log)
    requires CommitOk(members, h, r.currentTerm, r.log, r.commitIndex)
    requires AppendOk(members, h, m) && Led(h, m) <= log
    ensures var c := FollowCommit(r.commitIndex, m.leaderCommit, m.prevLogIndex + |m.entries|);
            c >= r.commitIndex && CommitOk(members, h, r.currentTerm, log, c)
  {
    if m.leaderCommit <= r.commitIndex {
      CommitSurvives(members, h, r, m, log);
      CommitLonger(members, h, r.currentTerm, r.log, log, r.commitIndex);
    } else {
      var led := h.elections[m.term].log;
      Nested(led[..m.leaderCommit + 1], Led(h, m), led);
      CommitLonger(members, h, r.currentTerm, led, log, m.leaderCommit);
    }
  }

  lemma AcceptedLogOk(h: History, h': History, r: RaftState, term: nat, log: Log)
    requires LeaderLogsOk(h.elections) && h'.elections == h.elections
    requires term in h.elections && term == r.currentTerm && 0 < |log| && log <= h.elections[term].log
    ensures LogOk(h', r.(log := log))
  {
    assert LeaderLogOk(h.elections, term);
    RootedPrefix(h.elections, h.elections[term].log, log);
    forall k | 0 <= k < |log| ensures log[k].term <= term {
      assert log[k] == h.elections[term].log[k];
    }
  }

  lemma AcceptOk(members: set<Id>, h: History, net: set<Message>, i: Id, r: RaftState, m: Message, log: Log, c: nat)
    requires LeaderLogsOk(h.elections) && AcksOk(h) && NodeOk(members, h, net, i, r) && r.role == Follower
    requires Accepted(h, r, m, log)
    requires 0 < |log| && Led(h, m) <= log <= h.elections[m.term].log
    requires (i, m.term) in h.acks ==> h.acks[(i, m.term)] < |log|
    requires c >= r.commitIndex && CommitOk(members, h, r.currentTerm, log, c)
    ensures var h' := Acknowledge(h, i, m.term, |log| - 1);
            AcksOk(h') && NodeOk(members, h', net, i, r.(log := log, commitIndex := c))
  {
    var h' := Acknowledge(h, i, m.term, |log| - 1);
    AcknowledgeExtends(h, i, m.term, |log| - 1);
    AcceptedKeeps(h, i, r, m, log);
    CommitGrows(members, h, h', r.currentTerm, log, c);
    AcceptedLogOk(h, h', r, m.term, log);
    var r' := r.(log := log, commitIndex := c);
    assert ConfigOk(members, i, r') && LogOk(h', r') && AckOk(h', i, r');
    assert VotesOk(h', i, r');
    assert RequestsOk(net, i, r');
  }

  lemma AcceptStep(nodes: map<Id, RaftState>, net: set<Message>, h: History, i: Id, m: Message)
    returns (r': RaftState, h': History)
    requires Inv(nodes, net, h) && i in nodes && m in net
    requires m.AppendEntries? && m.to == i && m.term == nodes[i].currentTerm
    requires nodes[i].role == Follower && Consistent(nodes[i].log, m)
    ensures var log := Merge(nodes[i].log, m.prevLogIndex + 1, m.entries);
            var c := FollowCommit(nodes[i].commitIndex, m.leaderCommit, m.prevLogIndex + |m.entries|);
            r' == nodes[i].(log := log, commitIndex := c)
    ensures Inv(nodes[i := r'], net + {AppendEntriesResp(i, m.from, m.term, false, LastLogIndex(r'.log))}, h')
    ensures Extends(h, h', i, m.term)
  {
    var r := nodes[i];
    assert NodeOk(nodes.Keys, h, net, i, r) && MessageOk(nodes.Keys, h, m);
    var log := Merge(r.log, m.prevLogIndex + 1, m.entries);
    MergedLog(h, r, m);
    AcceptedIsLed(h, r, m, log);
    AcceptedAck(h, i, r, m, log);
    AcceptedCommit(nodes.Keys, h, r, m, log);
    r' := r.(log := log, commitIndex := FollowCommit(r.commitIndex, m.leaderCommit, m.prevLogIndex + |m.entries|));
    AcceptOk(nodes.Keys, h, net, i, r, m, log, r'.commitIndex);
    h' := Acknowledge(h, i, m.term, |log| - 1);
    AcknowledgeExtends(h, i, m.term, |log| - 1);
    AckStep(nodes, net, h, i, m, r', h');
  }

  lemma AckStep(nodes: map<Id, RaftState>, net: set<Message>, h: History, i: Id, m: Message, r': RaftState, h': History)
    requires Inv(nodes, net, h) && i in nodes && m in net
    requires m.AppendEntries? && m.to == i && m.term == nodes[i].currentTerm == r'.currentTerm
    requires |r'.log| > 1 && LastLogIndex(r'.log) == |r'.log| - 1
    requires h' == Acknowledge(h, i, m.term, |r'.log| - 1) && Extends(h, h', i, m.term) && AcksOk(h')
    requires NodeOk(nodes.Keys, h', net, i, r')
    ensures Inv(nodes[i := r'], net + {AppendEntriesResp(i, m.from, m.term, false, LastLogIndex(r'.log))}, h')
  {
    var outs := {AppendEntriesResp(i, m.from, m.term, false, |r'.log| - 1)};
    assert MessageOk(nodes.Keys, h, m);
    assert OutsOk(nodes.Keys, h', i, outs);
    SameViewOk(nodes.Keys, h', net, outs, i, r', r');
    assert NewElectionOk(nodes.Keys, h, h', m.term) by { assert LeaderLogOk(h.elections, m.term); }
    assert NewVotesOk(nodes, h, i, m.term, h');
    StepKeepsInv(nodes, net, h, i, r', outs, h');
  }

  // ---- Rejection

  lemma {:induction false} ConflictStartBound(log: Log, hint: nat, t: nat)
    requires hint >= 1
    ensures 1 <= ConflictStart(log, hint, t) <= hint
  {
    if hint > 1 && LogTerm(log, hint - 1) == t {
      ConflictStartBound(log, hint - 1, t);
    }
  }

  /** The hint of a rejection lies strictly below the index that failed. */
  lemma HintBelow(log: Log, m: Message)
    requires m.AppendEntries? && !Consistent(log, m)
    ensures BackoffHint(log, m) < m.prevLogIndex
  {
    ConflictStartBound(log, m.prevLogIndex, LogTerm(log, m.prevLogIndex));
  }

  lemma RejectionOk(members: set<Id>, h: History, r: RaftState, m: Message)
    requires m.AppendEntries? && AppendOk(members, h, m) && m.term == r.currentTerm && r.id == m.to
    requires !Consistent(r.log, m)
    ensures MessageOk(members, h, AppendEntriesResp(r.id, m.from, r.currentTerm, true, BackoffHint(r.log, m)))
  {
    HintBelow(r.log, m);
  }

  // ---- Acknowledgements

  lemma BackOffStep(nodes: map<Id, RaftState>, net: set<Message>, h: History, i: Id, m: Message)
    requires Inv(nodes, net, h) && i in nodes && m in net
    requires m.AppendEntriesResp? && m.to == i && m.reject
    requires nodes[i].role == Leader && m.term == nodes[i].currentTerm
    ensures Inv(nodes[i := BackOff(nodes[i], m)], net, h)
  {
    assert NodeOk(nodes.Keys, h, net, i, nodes[i]) && MessageOk(nodes.Keys, h, m);
    assert LeaderOk(nodes.Keys, h, i, BackOff(nodes[i], m));
    assert net + {} == net;
    LocalStep(nodes, net, h, i, BackOff(nodes[i], m), {});
  }

  ghost function NoteSuccess(r: RaftState, m: Message): RaftState
    requires m.AppendEntriesResp?
  {
    r.(matchIndex := r.matchIndex[m.from := m.index], nextIndex := r.nextIndex[m.from := m.index + 1])
  }

  lemma SuccessStep(nodes: map<Id, RaftState>, net: set<Message>, h: History, i: Id, m: Message)
    requires Inv(nodes, net, h) && i in nodes && m in net
    requires m.AppendEntriesResp? && m.to == i && !m.reject
    requires nodes[i].role == Leader && m.term == nodes[i].currentTerm
    ensures Inv(nodes[i := NoteSuccess(nodes[i], m)], net, h)
  {
    var r := NoteSuccess(nodes[i], m);
    assert NodeOk(nodes.Keys, h, net, i, nodes[i]) && MessageOk(nodes.Keys, h, m);
    assert m.index < |r.log|;
    assert LeaderOk(nodes.Keys, h, i, r);
    assert net + {} == net;
    LocalStep(nodes, net, h, i, r, {});
  }

  // ---- Commitment

  ghost function Matching(peers: seq<Id>, matchIndex: map<Id, nat>, n: nat): set<Id> {
    set p | p in peers && Get(matchIndex, p) >= n
  }

  lemma {:induction false} CountIsSize(peers: seq<Id>, matchIndex: map<Id, nat>, n: nat)
    requires Distinct(peers)
    ensures CountMatches(peers, matchIndex, n) == |Matching(peers, matchIndex, n)|
  {
    if peers != [] {
      var init, p := peers[..|peers| - 1], peers[|peers| - 1];
      CountIsSize(init, matchIndex, n);
      MatchingLast(init, p, matchIndex, n);
      assert peers == init + [p];
    }
  }

  lemma MatchingLast(init: seq<Id>, p: Id, matchIndex: map<Id, nat>, n: nat)
    ensures Matching(init + [p], matchIndex, n) ==
              Matching(init, matchIndex, n) + if Get(matchIndex, p) >= n then {p} else {}
  {
  }

  /** An index the leader may commit has been acknowledged by a majority, the leader included. */
  lemma CommittableIsChosen(members: set<Id>, h: History, i: Id, r: RaftState, n: nat)
    requires LeaderLogsOk(h.elections) && AcksOk(h) && ConfigOk(members, i, r) && LeaderOk(members, h, i, r)
    requires r.role == Leader && 0 < n < |r.log| && Committable(r, n)
    ensures Chosen(members, h, r.currentTerm, n)
  {
    assert LeaderLogOk(h.elections, r.currentTerm);
    CountIsSize(r.peers, r.matchIndex, n);
    QuorumSizes(members, i, r);
    var voters := Matching(r.peers, r.matchIndex, n) + {i};
    forall v | v in voters ensures v in AckSet(members, h, r.currentTerm, n) {
      if v != i {
        assert v in Elements(r.peers);
      }
    }
    SubsetSize(voters, AckSet(members, h, r.currentTerm, n));
    assert i !in Elements(r.peers);
    assert |voters| == |Matching(r.peers, r.matchIndex, n)| + 1;
  }

  /** The commit scan ends at an index it found committable, or where it began. */
  lemma {:induction false} ScanFinds(s: RaftState, n: nat, best: nat)
    requires n > 0
    ensures var c := ScanCommit(s, n, best); c == best || (n <= c <= LastLogIndex(s.log) && Committable(s, c))
    decreases LastLogIndex(s.log) + 1 - n
  {
    if n <= LastLogIndex(s.log) {
      ScanFinds(s, n + 1, if Committable(s, n) then n else best);
    }
  }

  lemma AdvanceOk(members: set<Id>, h: History, net: set<Message>, i: Id, r: RaftState)
    requires LeaderLogsOk(h.elections) && AcksOk(h) && NodeOk(members, h, net, i, r) && r.role == Leader
    ensures var r' := MaybeAdvanceCommit(r);
            r'.commitIndex >= r.commitIndex && CommitOk(members, h, r.currentTerm, r.log, r'.commitIndex)
  {
    RootedNumbered(h.elections, r.log);
    ScanFinds(r, r.commitIndex + 1, r.commitIndex);
    var c := MaybeAdvanceCommit(r).commitIndex;
    if c != r.commitIndex {
      CommittableIsChosen(members, h, i, r, c);
      assert Prefix(h, r.currentTerm, c) <= r.log;
    }
  }

  lemma AdvanceStep(nodes: map<Id, RaftState>, net: set<Message>, h: History, i: Id)
    requires Inv(nodes, net, h) && i in nodes && nodes[i].role == Leader
    ensures Inv(nodes[i := MaybeAdvanceCommit(nodes[i])], net, h)
  {
    var r := nodes[i];
    assert NodeOk(nodes.Keys, h, net, i, r);
    AdvanceOk(nodes.Keys, h, net, i, r);
    assert NodeOk(nodes.Keys, h, net, i, MaybeAdvanceCommit(r));
    assert net + {} == net;
    LocalStep(nodes, net, h, i, MaybeAdvanceCommit(r), {});
  }

  // ---- Proposals

  /** The leader's state with one more entry of its term, before it sends anything. */
  ghost function Appended(r: RaftState, e: Entry): RaftState {
    r.(log := r.log + [e], matchIndex := r.matchIndex[r.id := e.index])
  }

  lemma AppendedOk(members: set<Id>, h: History, net: set<Message>, i: Id, r: RaftState, e: Entry, h': History)
    requires AcksOk(h) && AcksOk(h') && NodeOk(members, h, net, i, r) && r.role == Leader
    requires e.term == r.currentTerm
    requires h' == Lead(h, r.currentTerm, h.elections[r.currentTerm].(log := r.log + [e]))
    requires Extends(h, h', i, r.currentTerm) && LeaderLogOk(h'.elections, r.currentTerm)
    ensures NodeOk(members, h', net, i, Appended(r, e))
  {
    var l := Appended(r, e);
    LongerKeeps(h, h', i, r.currentTerm, r.log, l.log);
    CommitGrows(members, h, h', r.currentTerm, r.log, r.commitIndex);
    CommitLonger(members, h', r.currentTerm, r.log, l.log, r.commitIndex);
    forall p | p in members && p != i && Get(l.matchIndex, p) != 0
      ensures Acked(h', p, r.currentTerm, Get(l.matchIndex, p))
    {
      AckedGrows(h, h', p, r.currentTerm, Get(r.matchIndex, p));
    }
    assert LeaderOk(members, h', i, l);
    assert VotesOk(h', i, l);
  }

  lemma ProposeStep(nodes: map<Id, RaftState>, net: set<Message>, h: History, i: Id, e: Entry) returns (h': History)
    requires Inv(nodes, net, h) && i in nodes && nodes[i].role == Leader
    requires e.term == nodes[i].currentTerm && e.index == LastLogIndex(nodes[i].log) + 1
    ensures var l := Appended(nodes[i], e);
            Inv(nodes[i := l], net + Heartbeats(l), h') && Extends(h, h', i, l.currentTerm)
  {
    var r := nodes[i];
    var term := r.currentTerm;
    assert NodeOk(nodes.Keys, h, net, i, r);
    assert LeaderLogOk(h.elections, term);
    var e' := h.elections[term].(log := r.log + [e]);
    h' := Lead(h, term, e');
    LeadExtends(h, term, e');
    LedLogOk(h.elections, h'.elections, term, r.log, e);
    AppendedOk(nodes.Keys, h, net, i, r, e, h');
    LeaderStep(nodes, net, h, i, Appended(r, e), h');
  }
}
