/** Every state of every run without restarts satisfies the invariant, with a history that only grows. */
module Invariant {
  import opened Types
  import opened RaftSpec
  import opened Kv
  import opened NodeSpec
  import opened Cluster
  import opened History
  import opened Completeness
  import opened Extension
  import opened LocalSteps
  import opened Regions
  import opened Frames

  ghost function Rafts(s: State): map<Id, RaftState> {
    map i | i in s.nodes :: s.nodes[i].raft
  }

  /** What holds of a node between its critical sections. */
  ghost predicate NodeSettled(decode: Decoder, n: NodeState) {
    && n.raft.msgs == []
    && n.stored == HardState(n.raft.currentTerm, n.raft.votedFor)
    && n.raft.lastApplied < |n.raft.log|
    && n.applied == n.raft.log[1..n.raft.lastApplied + 1]
    && n.kv == Replay(decode, n.applied)
  }

  ghost predicate AllSettled(decode: Decoder, s: State) {
    forall i {:trigger NodeSettled(decode, s.nodes[i])} :: i in s.nodes ==> NodeSettled(decode, s.nodes[i])
  }

  ghost predicate Good(decode: Decoder, s: State, h: History) {
    Inv(Rafts(s), s.net, h) && AllSettled(decode, s)
  }

  // ---- Critical sections, seen from Raft

  /** The Raft state a critical section leaves. */
  ghost function Settled(r: RaftState, input: Input, draw: nat): RaftState {
    var a := Advance(r, input, draw);
    (if Applies(input) then ApplicableEntries(a).0 else a).(msgs := [])
  }

  lemma {:induction false} ApplyEntriesEffect(decode: Decoder, n: NodeState, entries: seq<Entry>)
    ensures var n' := ApplyEntries(decode, n, entries);
            && n'.raft == n.raft && n'.stored == n.stored && n'.tickets == n.tickets
            && n'.applied == n.applied + entries
            && (n.kv == Replay(decode, n.applied) ==> n'.kv == Replay(decode, n'.applied))
  {
    if entries != [] {
      var init, e := entries[..|entries| - 1], entries[|entries| - 1];
      ApplyEntriesEffect(decode, n, init);
      ReplayAppend(decode, n.applied + init, e);
      assert n.applied + entries == n.applied + init + [e];
    }
  }

  lemma FinishEffect(decode: Decoder, a: NodeState, input: Input)
    ensures var (n, outs) := Finish(decode, a, input);
            && n.raft == (if Applies(input) then ApplicableEntries(a.raft).0 else a.raft).(msgs := [])
            && outs == a.raft.msgs
            && n.stored == HardState(a.raft.currentTerm, a.raft.votedFor)
            && n.applied == a.applied + (if Applies(input) then ApplicableEntries(a.raft).1 else [])
            && (a.kv == Replay(decode, a.applied) ==> n.kv == Replay(decode, n.applied))
  {
    ApplyEntriesEffect(decode, a.(raft := ApplicableEntries(a.raft).0), ApplicableEntries(a.raft).1);
  }

  /** Within bounds, a node hands over precisely what is committed and not yet applied. */
  lemma ApplicableExactly(a: RaftState)
    requires a.lastApplied <= a.commitIndex < |a.log|
    ensures ApplicableEntries(a) == (a.(lastApplied := a.commitIndex), a.log[a.lastApplied + 1..a.commitIndex + 1])
  {
    assert a.log[a.commitIndex + 1..a.commitIndex + 1] == [];
  }

  lemma SliceJoin<T>(s: seq<T>, a: nat, b: nat, c: nat)
    requires a <= b <= c <= |s|
    ensures s[a..b] + s[b..c] == s[a..c]
  {
  }

  lemma SliceOfPrefix<T>(p: seq<T>, s: seq<T>)
    requires |p| > 0 && p <= s
    ensures p[1..] == s[1..|p|]
  {
  }

  /** A node applies exactly the entries between its old and its new applied index. */
  lemma FinishSettles(decode: Decoder, n: NodeState, a: RaftState, input: Input)
    requires NodeSettled(decode, n)
    requires a.lastApplied == n.raft.lastApplied <= a.commitIndex < |a.log|
    requires n.raft.log[..n.raft.lastApplied + 1] <= a.log
    ensures NodeSettled(decode, Finish(decode, n.(raft := a), input).0)
  {
    FinishEffect(decode, n.(raft := a), input);
    var k := n.raft.lastApplied;
    SliceOfPrefix(n.raft.log[..k + 1], a.log);
    SliceOfPrefix(n.raft.log[..k + 1], n.raft.log);
    ApplicableExactly(a);
    SliceJoin(a.log, 1, k + 1, a.commitIndex + 1);
  }

  /** No call lowers the commit index or moves the applied index. */
  lemma CommitRises(nodes: map<Id, RaftState>, net: set<Message>, h: History, i: Id, input: Input, draw: nat)
    requires Inv(nodes, net, h) && i in nodes
    requires input.Receive? ==> input.m in net && input.m.to == i
    ensures Advance(nodes[i], input, draw).commitIndex >= nodes[i].commitIndex
    ensures Advance(nodes[i], input, draw).lastApplied == nodes[i].lastApplied
  {
    AdvanceFrame(nodes[i], input, draw);
    if input.Receive? {
      assert MessageOk(nodes.Keys, h, input.m);
    }
  }

  /** Two logs agree wherever both are committed. */
  lemma CommittedAgree(members: set<Id>, h: History, t1: nat, log1: Log, c1: nat, t2: nat, log2: Log, c2: nat, n: nat)
    requires HistoryOk(members, h)
    requires Rooted(h.elections, log1) && Rooted(h.elections, log2)
    requires CommitOk(members, h, t1, log1, c1) && CommitOk(members, h, t2, log2, c2)
    requires n <= c1 && n <= c2
    ensures log1[..n + 1] == log2[..n + 1]
  {
    if n == 0 {
      assert log1[..1] == [SENTINEL] == log2[..1];
    } else {
      var u1: nat, n1: nat :| u1 <= t1 && Chosen(members, h, u1, n1) && c1 <= n1 && Prefix(h, u1, c1) <= log1;
      var u2: nat, n2: nat :| u2 <= t2 && Chosen(members, h, u2, n2) && c2 <= n2 && Prefix(h, u2, c2) <= log2;
      ChosenPrefixes(members, h, u1, n1, u2, n2, n);
      assert log1[..n + 1] == Prefix(h, u1, c1)[..n + 1] == Prefix(h, u1, n);
      assert log2[..n + 1] == Prefix(h, u2, c2)[..n + 1] == Prefix(h, u2, n);
    }
  }

  lemma ChosenPrefixes(members: set<Id>, h: History, u1: nat, n1: nat, u2: nat, n2: nat, n: nat)
    requires HistoryOk(members, h)
    requires Chosen(members, h, u1, n1) && Chosen(members, h, u2, n2)
    requires n <= n1 && n <= n2
    ensures Prefix(h, u1, n) == Prefix(h, u2, n)
  {
    PrefixesOfLog(h, u1, n, n1);
    PrefixesOfLog(h, u2, n, n2);
    if u1 <= u2 {
      ChosenAgree(members, h, u1, n1, u2, n2);
      Nested(Prefix(h, u1, n), Prefix(h, u2, n), h.elections[u2].log);
    } else {
      ChosenAgree(members, h, u2, n2, u1, n1);
      Nested(Prefix(h, u2, n), Prefix(h, u1, n), h.elections[u1].log);
    }
  }

  // ---- Steps

  lemma Lossy(nodes: map<Id, RaftState>, net: set<Message>, net': set<Message>, h: History)
    requires Inv(nodes, net, h) && net' <= net
    ensures Inv(nodes, net', h)
  {
    forall i | i in nodes ensures NodeOk(nodes.Keys, h, net', i, nodes[i]) {
      assert NodeOk(nodes.Keys, h, net, i, nodes[i]);
    }
    forall m | m in net' ensures MessageOk(nodes.Keys, h, m) {
      assert MessageOk(nodes.Keys, h, m);
    }
  }

  lemma Noisy(nodes: map<Id, RaftState>, net: set<Message>, h: History, m: Message)
    requires Inv(nodes, net, h) && (m.RequestVote? || m.RequestVoteResp?) && m.isPreVote
    ensures Inv(nodes, net + {m}, h)
  {
    forall i | i in nodes ensures NodeOk(nodes.Keys, h, net + {m}, i, nodes[i]) {
      assert NodeOk(nodes.Keys, h, net, i, nodes[i]);
      SameViewOk(nodes.Keys, h, net, {m}, i, nodes[i], nodes[i]);
    }
    forall k | k in net + {m} ensures MessageOk(nodes.Keys, h, k) {
      if k != m {
        assert MessageOk(nodes.Keys, h, k);
      }
    }
  }

  lemma FreshOk(members: set<Id>, i: Id, r: RaftState)
    requires Configured(members, i, r) && i in members
    requires r.currentTerm == 0 && r.log == [SENTINEL] && r.commitIndex == r.lastApplied == 0 && r.role == Follower
    ensures NodeOk(members, History(map[], map[], map[]), {}, i, r)
  {
  }

  lemma InitGood(decode: Decoder, s: State) returns (h: History)
    requires Init(s)
    ensures Good(decode, s, h)
  {
    h := History(map[], map[], map[]);
    assert Rafts(s).Keys == s.nodes.Keys;
    NothingHappened(s.nodes.Keys);
    forall i | i in s.nodes ensures InitialOk(decode, s.nodes.Keys, i, s.nodes[i]) {
      FreshSettled(decode, s.nodes[i]);
      FreshOk(s.nodes.Keys, i, s.nodes[i].raft);
    }
    InitialInv(decode, s.nodes, Rafts(s), h);
    InitialSettled(decode, s);
  }

  lemma NothingHappened(members: set<Id>)
    ensures HistoryOk(members, History(map[], map[], map[]))
  {
  }

  ghost predicate InitialOk(decode: Decoder, members: set<Id>, i: Id, n: NodeState) {
    NodeOk(members, History(map[], map[], map[]), {}, i, n.raft) && NodeSettled(decode, n)
  }

  ghost predicate AllInitial(decode: Decoder, nodes: map<Id, NodeState>) {
    forall i {:trigger InitialOk(decode, nodes.Keys, i, nodes[i])} :: i in nodes ==> InitialOk(decode, nodes.Keys, i, nodes[i])
  }

  lemma InitialInv(decode: Decoder, nodes: map<Id, NodeState>, rafts: map<Id, RaftState>, h: History)
    requires AllInitial(decode, nodes) && h == History(map[], map[], map[]) && HistoryOk(nodes.Keys, h)
    requires rafts.Keys == nodes.Keys && forall i :: i in rafts ==> rafts[i] == nodes[i].raft
    ensures Inv(rafts, {}, h)
  {
    forall i | i in rafts ensures NodeOk(rafts.Keys, h, {}, i, rafts[i]) {
      assert InitialOk(decode, nodes.Keys, i, nodes[i]);
    }
  }

  lemma InitialSettled(decode: Decoder, s: State)
    requires AllInitial(decode, s.nodes)
    ensures AllSettled(decode, s)
  {
    forall i | i in s.nodes ensures NodeSettled(decode, s.nodes[i]) {
      assert InitialOk(decode, s.nodes.Keys, i, s.nodes[i]);
    }
  }

  lemma FreshSettled(decode: Decoder, n: NodeState)
    requires Fresh(n)
    ensures NodeSettled(decode, n)
    ensures n.raft.currentTerm == 0 && n.raft.log == [SENTINEL] && n.raft.commitIndex == n.raft.lastApplied == 0
    ensures n.raft.role == Follower
  {
  }

  lemma RaftStepGood(nodes: map<Id, RaftState>, net: set<Message>, h: History, i: Id, input: Input, draw: nat)
    returns (h': History)
    requires Inv(nodes, net, h) && i in nodes && nodes[i].msgs == []
    requires input.Receive? ==> input.m in net && input.m.to == i
    ensures var a := Advance(nodes[i], input, draw);
            && Inv(nodes[i := Settled(nodes[i], input, draw)], net + Elements(a.msgs), h') && Le(h, h')
            && a.lastApplied == nodes[i].lastApplied <= nodes[i].commitIndex && a.commitIndex < |a.log|
            && nodes[i].commitIndex <= a.commitIndex && nodes[i].commitIndex < |nodes[i].log|
            && nodes[i].log[..nodes[i].commitIndex + 1] <= a.log
  {
    var a := Advance(nodes[i], input, draw);
    h' := AdvanceRegion(nodes, net, h, i, input, draw);
    CommitBounds(nodes, net, h, i);
    CommitRises(nodes, net, h, i, input, draw);
    var nodes1 := nodes[i := a];
    var net1 := net + Elements(a.msgs);
    CommitBounds(nodes1, net1, h', i);
    Survives(nodes, net, h, nodes1, net1, h', i);
    Settle(nodes1, net1, h', i, Settled(nodes[i], input, draw));
    Overwrite(nodes, i, a, Settled(nodes[i], input, draw));
  }

  /** What was committed before is still there when the commit index has not fallen. */
  lemma Survives(nodes: map<Id, RaftState>, net: set<Message>, h: History,
                 nodes': map<Id, RaftState>, net': set<Message>, h': History, i: Id)
    requires Inv(nodes, net, h) && Inv(nodes', net', h') && Le(h, h')
    requires nodes.Keys == nodes'.Keys && i in nodes
    requires nodes[i].commitIndex <= nodes'[i].commitIndex
    ensures nodes[i].commitIndex < |nodes[i].log| && nodes[i].log[..nodes[i].commitIndex + 1] <= nodes'[i].log
  {
    var r, r' := nodes[i], nodes'[i];
    assert NodeOk(nodes.Keys, h, net, i, nodes[i]);
    assert NodeOk(nodes'.Keys, h', net', i, nodes'[i]);
    CommitGrows(nodes.Keys, h, h', r.currentTerm, r.log, r.commitIndex);
    RootedGrows(h.elections, h'.elections, r.log);
    CommittedAgree(nodes.Keys, h', r.currentTerm, r.log, r.commitIndex, r'.currentTerm, r'.log, r'.commitIndex, r.commitIndex);
  }

  /** A busy step installs what Finish makes of the moved Raft state, and sends at most its output buffer. */
  lemma StepShape(decode: Decoder, s: State, s': State, i: Id, input: Input, draw: nat)
    requires NodeStep(decode, s, s', i, input, draw) && !(input.Client? && s.nodes[i].raft.role != Leader)
    ensures var (n, outs) := Finish(decode, s.nodes[i].(raft := Advance(s.nodes[i].raft, input, draw)), input);
            s'.nodes == s.nodes[i := n] && s.net <= s'.net <= s.net + Elements(outs)
  {
  }

  lemma InstallGood(decode: Decoder, s: State, s': State, i: Id, r: RaftState, outs: seq<Message>, h: History)
    requires i in s.nodes && AllSettled(decode, s)
    requires Inv(Rafts(s)[i := r], s.net + Elements(outs), h)
    requires i in s'.nodes && NodeSettled(decode, s'.nodes[i]) && s'.nodes[i].raft == r
    requires s'.nodes == s.nodes[i := s'.nodes[i]] && s'.net <= s.net + Elements(outs)
    ensures Good(decode, s', h)
  {
    InstallRafts(s, s', i);
    Lossy(Rafts(s'), s.net + Elements(outs), s'.net, h);
    OthersSettled(decode, s, s', i);
  }

  lemma InstallRafts(s: State, s': State, i: Id)
    requires i in s'.nodes && s'.nodes == s.nodes[i := s'.nodes[i]]
    ensures Rafts(s') == Rafts(s)[i := s'.nodes[i].raft]
  {
  }

  lemma NodeStepGood(decode: Decoder, s: State, s': State, i: Id, input: Input, draw: nat, h: History) returns (h': History)
    requires Good(decode, s, h) && NodeStep(decode, s, s', i, input, draw)
    ensures Good(decode, s', h') && Le(h, h')
  {
    if input.Client? && s.nodes[i].raft.role != Leader {
      h' := h;
      assert s'.nodes == s.nodes && s'.net == s.net;
    } else {
      h' := BusyStepGood(decode, s, s', i, input, draw, h);
    }
  }

  lemma BusyStepGood(decode: Decoder, s: State, s': State, i: Id, input: Input, draw: nat, h: History) returns (h': History)
    requires Good(decode, s, h) && NodeStep(decode, s, s', i, input, draw)
    requires !(input.Client? && s.nodes[i].raft.role != Leader)
    ensures Good(decode, s', h') && Le(h, h')
  {
    var n := s.nodes[i];
    assert NodeSettled(decode, s.nodes[i]);
    StepShape(decode, s, s', i, input, draw);
    h' := RaftStepGood(Rafts(s), s.net, h, i, input, draw);
    MovedSettles(decode, n, Advance(n.raft, input, draw), input);
    InstallGood(decode, s, s', i, Settled(n.raft, input, draw), Advance(n.raft, input, draw).msgs, h');
  }

  lemma MovedSettles(decode: Decoder, n: NodeState, a: RaftState, input: Input)
    requires NodeSettled(decode, n)
    requires a.lastApplied == n.raft.lastApplied <= n.raft.commitIndex <= a.commitIndex < |a.log|
    requires n.raft.commitIndex < |n.raft.log| && n.raft.log[..n.raft.commitIndex + 1] <= a.log
    ensures var (n', outs) := Finish(decode, n.(raft := a), input);
            && NodeSettled(decode, n')
            && n'.raft == (if Applies(input) then ApplicableEntries(a).0 else a).(msgs := [])
            && outs == a.msgs
  {
    FinishEffect(decode, n.(raft := a), input);
    Nested(n.raft.log[..n.raft.lastApplied + 1], n.raft.log[..n.raft.commitIndex + 1], n.raft.log);
    FinishSettles(decode, n, a, input);
  }

  lemma OthersSettled(decode: Decoder, s: State, s': State, i: Id)
    requires AllSettled(decode, s)
    requires i in s'.nodes && NodeSettled(decode, s'.nodes[i]) && s'.nodes == s.nodes[i := s'.nodes[i]]
    ensures AllSettled(decode, s')
  {
    forall j | j in s'.nodes ensures NodeSettled(decode, s'.nodes[j]) {
      if j != i {
        assert NodeSettled(decode, s.nodes[j]);
      }
    }
  }

  /** Every step keeps the invariant, and the history only grows. */
  lemma NextGood(decode: Decoder, s: State, s': State, h: History) returns (h': History)
    requires Good(decode, s, h) && Next(decode, s, s')
    ensures Good(decode, s', h') && Le(h, h') && s'.nodes.Keys == s.nodes.Keys
  {
    if i, input, draw :| NodeStep(decode, s, s', i, input, draw) {
      h' := NodeStepGood(decode, s, s', i, input, draw, h);
    } else {
      var m :| PreVoteArrives(s, s', m);
      h' := h;
      assert Rafts(s') == Rafts(s);
      Noisy(Rafts(s), s.net, h, m);
    }
  }

  /** A history for every state of a run, each remembering the ones before. */
  ghost predicate Chronicle(decode: Decoder, run: seq<State>, hs: seq<History>) {
    && |hs| == |run| > 0
    && (forall k {:trigger GoodAt(decode, run, hs, k)} :: 0 <= k < |run| ==> GoodAt(decode, run, hs, k))
    && (forall j, k {:trigger Remembers(hs, j, k)} :: 0 <= j <= k < |run| ==> Remembers(hs, j, k))
  }

  ghost predicate GoodAt(decode: Decoder, run: seq<State>, hs: seq<History>, k: int)
    requires 0 <= k < |run| == |hs|
  {
    Good(decode, run[k], hs[k]) && run[k].nodes.Keys == run[0].nodes.Keys
  }

  ghost predicate Remembers(hs: seq<History>, j: int, k: int)
    requires 0 <= j <= k < |hs|
  {
    Le(hs[j], hs[k])
  }

  lemma {:induction false} RunGood(decode: Decoder, run: seq<State>) returns (hs: seq<History>)
    requires Run(decode, run)
    ensures Chronicle(decode, run, hs)
  {
    var last := |run| - 1;
    if last == 0 {
      var h := InitGood(decode, run[0]);
      hs := [h];
    } else {
      var init := run[..last];
      assert Run(decode, init) by {
        forall k | 0 < k < last ensures Moves(decode, init, k) { assert Moves(decode, run, k); }
      }
      assert Moves(decode, run, last);
      var gs := RunGood(decode, init);
      assert GoodAt(decode, init, gs, last - 1);
      var h := NextGood(decode, run[last - 1], run[last], gs[last - 1]);
      hs := gs + [h];
      ChronicleExtended(decode, init, gs, run[last], h);
      assert run == init + [run[last]];
    }
  }

  lemma ChronicleExtended(decode: Decoder, run: seq<State>, hs: seq<History>, s: State, h: History)
    requires Chronicle(decode, run, hs)
    requires Good(decode, s, h) && Le(hs[|hs| - 1], h) && s.nodes.Keys == run[|run| - 1].nodes.Keys
    ensures Chronicle(decode, run + [s], hs + [h])
  {
    var run', hs' := run + [s], hs + [h];
    var last := |run|;
    forall k | 0 <= k < |run'| ensures GoodAt(decode, run', hs', k) {
      assert GoodAt(decode, run, hs, if k < last then k else last - 1);
    }
    forall j, k | 0 <= j <= k < |run'| ensures Remembers(hs', j, k) {
      if k < last {
        assert Remembers(hs, j, k);
      } else if j < last {
        assert Remembers(hs, j, last - 1);
        LeTransitive(hs[j], hs[last - 1], h);
      }
    }
  }
}
