/** What every run without restarts guarantees. */
module Safety {
  import opened Types
  import opened RaftSpec
  import opened Kv
  import opened NodeSpec
  import opened Cluster
  import opened History
  import opened Completeness
  import opened Extension
  import opened Invariant

  /** The invariant for one node of one state. */
  lemma NodeAt(decode: Decoder, run: seq<State>, hs: seq<History>, k: nat, i: Id)
    requires Chronicle(decode, run, hs) && At(run, k, i)
    ensures HistoryOk(run[0].nodes.Keys, hs[k])
    ensures NodeOk(run[0].nodes.Keys, hs[k], run[k].net, i, RaftOf(run, k, i))
    ensures NodeSettled(decode, run[k].nodes[i])
  {
    assert GoodAt(decode, run, hs, k);
    assert Rafts(run[k]).Keys == run[0].nodes.Keys;
    assert NodeOk(Rafts(run[k]).Keys, hs[k], run[k].net, i, Rafts(run[k])[i]);
    assert NodeSettled(decode, run[k].nodes[i]);
  }

  lemma HistoryAt(decode: Decoder, run: seq<State>, hs: seq<History>, k: nat)
    requires Chronicle(decode, run, hs) && k < |run|
    ensures HistoryOk(run[0].nodes.Keys, hs[k])
  {
    assert GoodAt(decode, run, hs, k);
    assert Rafts(run[k]).Keys == run[0].nodes.Keys;
  }

  lemma LeaderAt(decode: Decoder, run: seq<State>, hs: seq<History>, k: nat, i: Id)
    requires Chronicle(decode, run, hs) && At(run, k, i)
    ensures LeaderOk(run[0].nodes.Keys, hs[k], i, RaftOf(run, k, i))
  {
    NodeAt(decode, run, hs, k, i);
  }

  lemma AcksAt(decode: Decoder, run: seq<State>, hs: seq<History>, k: nat, i: Id)
    requires Chronicle(decode, run, hs) && At(run, k, i)
    ensures AcksOk(hs[k]) && AckOk(hs[k], i, RaftOf(run, k, i))
  {
    NodeAt(decode, run, hs, k, i);
  }

  lemma LogAt(decode: Decoder, run: seq<State>, hs: seq<History>, k: nat, i: Id)
    requires Chronicle(decode, run, hs) && At(run, k, i)
    ensures LogOk(hs[k], RaftOf(run, k, i))
    ensures Numbered(RaftOf(run, k, i).log) && LastLogIndex(RaftOf(run, k, i).log) == |RaftOf(run, k, i).log| - 1
  {
    NodeAt(decode, run, hs, k, i);
    RootedNumbered(hs[k].elections, RaftOf(run, k, i).log);
  }

  lemma MessageAt(decode: Decoder, run: seq<State>, hs: seq<History>, k: nat, m: Message)
    requires Chronicle(decode, run, hs) && k < |run| && m in run[k].net
    ensures MessageOk(run[0].nodes.Keys, hs[k], m)
  {
    assert GoodAt(decode, run, hs, k);
    assert Rafts(run[k]).Keys == run[0].nodes.Keys;
    assert MessageOk(Rafts(run[k]).Keys, hs[k], m);
  }

  /** What a node had committed, judged by a later history. */
  lemma CommittedLater(decode: Decoder, run: seq<State>, hs: seq<History>, k: nat, i: Id, l: nat)
    requires Chronicle(decode, run, hs) && At(run, k, i) && k <= l < |run|
    ensures var r := RaftOf(run, k, i);
            && Rooted(hs[l].elections, r.log)
            && CommitOk(run[0].nodes.Keys, hs[l], r.currentTerm, r.log, r.commitIndex)
  {
    NodeAt(decode, run, hs, k, i);
    assert Remembers(hs, k, l);
    var r := RaftOf(run, k, i);
    RootedGrows(hs[k].elections, hs[l].elections, r.log);
    CommitGrows(run[0].nodes.Keys, hs[k], hs[l], r.currentTerm, r.log, r.commitIndex);
  }

  lemma CommittedLogsAgree(decode: Decoder, run: seq<State>, hs: seq<History>, k: nat, i: Id, l: nat, j: Id, n: nat)
    requires Chronicle(decode, run, hs) && At(run, k, i) && At(run, l, j)
    requires n <= RaftOf(run, k, i).commitIndex && n <= RaftOf(run, l, j).commitIndex
    ensures n < |RaftOf(run, k, i).log| && n < |RaftOf(run, l, j).log|
    ensures RaftOf(run, k, i).log[..n + 1] == RaftOf(run, l, j).log[..n + 1]
  {
    var top := if k <= l then l else k;
    CommittedLater(decode, run, hs, k, i, top);
    CommittedLater(decode, run, hs, l, j, top);
    NodeAt(decode, run, hs, top, if k <= l then j else i);
    var a, b := RaftOf(run, k, i), RaftOf(run, l, j);
    CommittedAgree(run[0].nodes.Keys, hs[top], a.currentTerm, a.log, a.commitIndex, b.currentTerm, b.log, b.commitIndex, n);
  }

  lemma SettledAt(decode: Decoder, run: seq<State>, hs: seq<History>, k: nat, i: Id)
    requires Chronicle(decode, run, hs) && At(run, k, i)
    ensures NodeSettled(decode, run[k].nodes[i])
    ensures RaftOf(run, k, i).lastApplied <= RaftOf(run, k, i).commitIndex < |RaftOf(run, k, i).log|
  {
    NodeAt(decode, run, hs, k, i);
  }

  lemma AppliedPrefix(a: Log, b: Log, m: nat, n: nat)
    requires m <= n && m < |a| && n < |b| && a[..m + 1] == b[..m + 1]
    ensures a[1..m + 1] <= b[1..n + 1]
  {
    assert a[1..m + 1] == a[..m + 1][1..] == b[..m + 1][1..] == b[1..m + 1];
  }

  /**
   State machine safety: whatever two nodes have applied, at whatever two moments of a run, one is a prefix
   of the other; and nodes that have applied equally much hold the same table.
   */
  lemma StateMachineSafety(decode: Decoder, run: seq<State>, k: nat, i: Id, l: nat, j: Id)
    requires Run(decode, run) && At(run, k, i) && At(run, l, j)
    ensures var a, b := run[k].nodes[i], run[l].nodes[j];
            && (a.applied <= b.applied || b.applied <= a.applied)
            && (|a.applied| == |b.applied| ==> a.kv == b.kv)
  {
    var hs := RunGood(decode, run);
    SettledAt(decode, run, hs, k, i);
    SettledAt(decode, run, hs, l, j);
    var a, b := RaftOf(run, k, i), RaftOf(run, l, j);
    if a.lastApplied <= b.lastApplied {
      CommittedLogsAgree(decode, run, hs, k, i, l, j, a.lastApplied);
      AppliedPrefix(a.log, b.log, a.lastApplied, b.lastApplied);
    } else {
      CommittedLogsAgree(decode, run, hs, k, i, l, j, b.lastApplied);
      AppliedPrefix(b.log, a.log, b.lastApplied, a.lastApplied);
    }
  }

  /** The table of a node is the replay of its own log up to the applied index. */
  lemma TableIsReplay(decode: Decoder, run: seq<State>, k: nat, i: Id)
    requires Run(decode, run) && At(run, k, i)
    ensures var n := run[k].nodes[i];
            && n.raft.lastApplied < |n.raft.log|
            && n.applied == n.raft.log[1..n.raft.lastApplied + 1]
            && n.kv == Replay(decode, n.raft.log[1..n.raft.lastApplied + 1])
  {
    var hs := RunGood(decode, run);
    NodeAt(decode, run, hs, k, i);
  }

  /**
   Leader completeness: what any node has committed while in some term is in the log of every leader of a later
   term, even one elected earlier in the run, and in that of a leader of the same term from then on.
   */
  lemma LeadersHoldCommitted(decode: Decoder, run: seq<State>, k: nat, i: Id, l: nat, j: Id)
    requires Run(decode, run) && At(run, k, i) && At(run, l, j)
    requires RaftOf(run, l, j).role == Leader
    requires || RaftOf(run, k, i).currentTerm < RaftOf(run, l, j).currentTerm
             || (RaftOf(run, k, i).currentTerm == RaftOf(run, l, j).currentTerm && k <= l)
    ensures var r := RaftOf(run, k, i);
            r.commitIndex < |r.log| && r.log[..r.commitIndex + 1] <= RaftOf(run, l, j).log
  {
    var hs := RunGood(decode, run);
    var members := run[0].nodes.Keys;
    var r, term := RaftOf(run, k, i), RaftOf(run, l, j).currentTerm;
    var top := if k <= l then l else k;
    LeaderAt(decode, run, hs, l, j);
    HistoryAt(decode, run, hs, top);
    CommittedLater(decode, run, hs, k, i, top);
    if r.currentTerm == term {
      CommittedHeld(members, hs[l], term, r.log, r.commitIndex);
    } else {
      LedBefore(decode, run, hs, l, top, term);
      HeldInBase(members, hs[top], r.currentTerm, r.log, r.commitIndex, term);
    }
  }

  /** An election known at one moment of a run is known, with the same base, at every later one. */
  lemma LedBefore(decode: Decoder, run: seq<State>, hs: seq<History>, k: nat, l: nat, term: nat)
    requires Chronicle(decode, run, hs) && k <= l < |run| && term in hs[k].elections
    ensures term in hs[l].elections && hs[l].elections[term].base <= hs[k].elections[term].log
  {
    assert Remembers(hs, k, l);
    HistoryAt(decode, run, hs, k);
    BaseOfLog(hs[k].elections, term);
  }

  lemma HeldInBase(members: set<Id>, h: History, term: nat, log: Log, c: nat, later: nat)
    requires HistoryOk(members, h) && later in h.elections && term < later
    requires Rooted(h.elections, log) && CommitOk(members, h, term, log, c)
    ensures log[..c + 1] <= h.elections[later].base
  {
    if c == 0 {
      assert LeaderLogOk(h.elections, later);
      assert log[..1] == [SENTINEL] == h.elections[later].base[..1] by {
        assert h.elections[later].base[0] == h.elections[later].log[0];
      }
    } else {
      var t: nat, n: nat :| t <= term && Chosen(members, h, t, n) && c <= n && Prefix(h, t, c) <= log;
      LeaderCompleteness(members, h, t, n, later);
      PrefixesOfLog(h, t, c, n);
      Nested(Prefix(h, t, c), log[..c + 1], log);
    }
  }

  // ---- Commitment over time

  lemma NextCommitRises(decode: Decoder, s: State, s': State, h: History, i: Id)
    requires Good(decode, s, h) && Next(decode, s, s') && i in s.nodes
    ensures i in s'.nodes && s.nodes[i].raft.commitIndex <= s'.nodes[i].raft.commitIndex
  {
    if j, input, draw :| NodeStep(decode, s, s', j, input, draw) {
      if j == i && !(input.Client? && s.nodes[i].raft.role != Leader) {
        StepShape(decode, s, s', i, input, draw);
        var a := Advance(s.nodes[i].raft, input, draw);
        FinishEffect(decode, s.nodes[i].(raft := a), input);
        CommitRises(Rafts(s), s.net, h, i, input, draw);
      }
    } else {
      var m :| PreVoteArrives(s, s', m);
    }
  }

  lemma {:induction false} CommitNeverFalls(decode: Decoder, run: seq<State>, hs: seq<History>, k: nat, l: nat, i: Id)
    requires Run(decode, run) && Chronicle(decode, run, hs) && k <= l && At(run, k, i) && At(run, l, i)
    ensures RaftOf(run, k, i).commitIndex <= RaftOf(run, l, i).commitIndex
    decreases l
  {
    if k < l {
      SameMembers(decode, run, hs, l, l - 1);
      CommitNeverFalls(decode, run, hs, k, l - 1, i);
      CommitRisesAt(decode, run, hs, l, i);
    }
  }

  lemma CommitRisesAt(decode: Decoder, run: seq<State>, hs: seq<History>, l: nat, i: Id)
    requires Run(decode, run) && Chronicle(decode, run, hs) && 0 < l && At(run, l, i) && At(run, l - 1, i)
    ensures RaftOf(run, l - 1, i).commitIndex <= RaftOf(run, l, i).commitIndex
  {
    assert GoodAt(decode, run, hs, l - 1);
    assert Moves(decode, run, l);
    NextCommitRises(decode, run[l - 1], run[l], hs[l - 1], i);
  }

  lemma SameMembers(decode: Decoder, run: seq<State>, hs: seq<History>, k: nat, l: nat)
    requires Chronicle(decode, run, hs) && k < |run| && l < |run|
    ensures run[k].nodes.Keys == run[l].nodes.Keys == run[0].nodes.Keys
  {
    assert GoodAt(decode, run, hs, k) && GoodAt(decode, run, hs, l);
  }

  /**
   The applied index never passes the commit index, nor that the end of the log; the commit index never falls;
   and what lies at or below it is never truncated or overwritten.
   */
  lemma CommittedForever(decode: Decoder, run: seq<State>, k: nat, l: nat, i: Id)
    requires Run(decode, run) && k <= l && At(run, k, i) && At(run, l, i)
    ensures var a, b := RaftOf(run, k, i), RaftOf(run, l, i);
            && a.lastApplied <= a.commitIndex <= LastLogIndex(a.log) < |a.log|
            && a.commitIndex <= b.commitIndex
            && a.log[..a.commitIndex + 1] <= b.log
  {
    var hs := RunGood(decode, run);
    NodeAt(decode, run, hs, k, i);
    var a := RaftOf(run, k, i);
    RootedNumbered(hs[k].elections, a.log);
    CommitNeverFalls(decode, run, hs, k, l, i);
    CommittedLogsAgree(decode, run, hs, k, i, l, i, a.commitIndex);
  }

  // ---- Replication

  /**
   A success reply is sound. Although it reports the whole length of the follower's log, a leader of its term
   holds every index it names, and the follower's log is the leader's through it for as long as the follower
   stays in the term.
   */
  lemma SuccessRepliesSound(decode: Decoder, run: seq<State>, k: nat, m: Message)
    requires Run(decode, run) && At(run, k, m.from) && At(run, k, m.to)
    requires m in run[k].net && m.AppendEntriesResp? && !m.reject
    requires RaftOf(run, k, m.to).role == Leader && RaftOf(run, k, m.to).currentTerm == m.term
    ensures var leader, follower := RaftOf(run, k, m.to), RaftOf(run, k, m.from);
            && 0 < m.index <= LastLogIndex(leader.log) < |leader.log|
            && (follower.currentTerm == m.term ==>
                  m.index < |follower.log| && follower.log[..m.index + 1] == leader.log[..m.index + 1])
  {
    var hs := RunGood(decode, run);
    MessageAt(decode, run, hs, k, m);
    LeaderAt(decode, run, hs, k, m.to);
    AcksAt(decode, run, hs, k, m.from);
    LogAt(decode, run, hs, k, m.to);
    AckedHeld(hs[k], m.from, RaftOf(run, k, m.from), m.term, m.index);
  }

  /** A node that is still in the term holds what it acknowledged in it. */
  lemma AckedHeld(h: History, v: Id, r: RaftState, term: nat, n: nat)
    requires AcksOk(h) && AckOk(h, v, r) && Acked(h, v, term, n)
    ensures term in h.elections && n < |h.elections[term].log|
    ensures r.currentTerm == term ==> n < |r.log| && r.log[..n + 1] == h.elections[term].log[..n + 1]
  {
    if r.currentTerm == term {
      assert Prefix(h, term, n) <= r.log;
    }
  }

  /** A leader's matchIndex for a peer is a lower bound on how far the peer's log is its own. */
  lemma MatchIndexSound(decode: Decoder, run: seq<State>, k: nat, i: Id, p: Id)
    requires Run(decode, run) && At(run, k, i) && At(run, k, p) && p != i
    requires RaftOf(run, k, i).role == Leader
    requires RaftOf(run, k, p).currentTerm == RaftOf(run, k, i).currentTerm
    ensures var leader, peer := RaftOf(run, k, i), RaftOf(run, k, p);
            var n := Get(leader.matchIndex, p);
            n < |leader.log| && n < |peer.log| && peer.log[..n + 1] == leader.log[..n + 1]
  {
    var hs := RunGood(decode, run);
    SameMembers(decode, run, hs, k, 0);
    LeaderAt(decode, run, hs, k, i);
    var leader := RaftOf(run, k, i);
    var n := Get(leader.matchIndex, p);
    if n > 0 {
      AcksAt(decode, run, hs, k, p);
      AckedHeld(hs[k], p, RaftOf(run, k, p), leader.currentTerm, n);
    } else {
      LogAt(decode, run, hs, k, i);
      LogAt(decode, run, hs, k, p);
      assert leader.log[..1] == [SENTINEL] == RaftOf(run, k, p).log[..1];
    }
  }

  // ---- Votes

  /** Without restarts, a node that has stood in a term grants that term's vote to no one else. */
  lemma CandidatesVoteForThemselves(decode: Decoder, run: seq<State>, k: nat, i: Id, l: nat, m: Message)
    requires Run(decode, run) && At(run, k, i) && l < |run| && m in run[l].net
    requires RaftOf(run, k, i).role != Follower
    requires m.RequestVoteResp? && !m.isPreVote && !m.reject && m.from == i
    ensures m.term == RaftOf(run, k, i).currentTerm ==> m.to == i
  {
    var hs := RunGood(decode, run);
    var top := if k <= l then l else k;
    assert Vote(i, RaftOf(run, k, i).currentTerm, i) in hs[k].votes by { NodeAt(decode, run, hs, k, i); }
    MessageAt(decode, run, hs, l, m);
    VotesLater(decode, run, hs, k, top, Vote(i, RaftOf(run, k, i).currentTerm, i));
    VotesLater(decode, run, hs, l, top, Vote(i, m.term, m.to));
    assert OneCandidate(hs[top]) by { HistoryAt(decode, run, hs, top); }
  }

  lemma VotesLater(decode: Decoder, run: seq<State>, hs: seq<History>, k: nat, l: nat, b: Vote)
    requires Chronicle(decode, run, hs) && k <= l < |run| && b in hs[k].votes
    ensures b in hs[l].votes
  {
    assert Remembers(hs, k, l);
  }
}
