/** A run of three members in which a node votes twice in a term. */
module SecondVoteRun {
  import opened Types
  import opened RaftSpec
  import opened Kv
  import opened NodeSpec
  import opened Cluster
  import opened Invariant
  import opened Elections
  import opened ElectionRuns
  import opened SecondVotes

  /** A member of a cluster of three that has just been started, with the shortest timeouts there are. */
  function Newcomer(i: Id, peers: seq<Id>): NodeState {
    NewNode(NewRaft(i, peers, 1, 1, 0, NONE, [], 0), HardState(0, NONE))
  }

  function Request(i: Id, p: Id): Message {
    RequestVote(i, p, 1, 0, 0, false)
  }

  /** A candidate of the first term that has counted its own vote. */
  ghost predicate Stands(n: NodeState, i: Id, peers: seq<Id>) {
    && n.raft.id == i && n.raft.peers == peers && n.raft.baseElectionTimeout == 1 && n.raft.msgs == []
    && n.raft.role == Candidate && n.raft.currentTerm == 1 && n.raft.votes == map[i := true]
  }

  lemma NewcomerStands(decode: Decoder, i: Id, peers: seq<Id>)
    requires |peers| == 2
    ensures var (n, outs) := Region(decode, Newcomer(i, peers), Timer, 0);
            Stands(n, i, peers) && forall p :: p in peers ==> Request(i, p) in outs
  {
    var r := Newcomer(i, peers).raft;
    var c := Nominate(r.(leaderActive := false), 0);
    assert Granted(c.votes) == {i};
    var a := Tick(r, 0);
    assert a == BroadcastRequestVote(c);
    forall p | p in peers ensures Request(i, p) in a.msgs {
      var k :| 0 <= k < |peers| && peers[k] == p;
      assert a.msgs[k] == VoteRequestFor(c, p) == Request(i, p);
    }
    FinishEffect(decode, Newcomer(i, peers).(raft := a), Timer);
  }

  lemma NewcomerGrants(decode: Decoder, i: Id, peers: seq<Id>, c: Id)
    ensures Region(decode, Newcomer(i, peers), Receive(Request(c, i)), 0).1 == [RequestVoteResp(i, c, 1, false, false)]
  {
    var r := Newcomer(i, peers).raft;
    var s := StepDown(r, Request(c, i), 0);
    assert CanGrant(s, Request(c, i));
    FinishEffect(decode, Newcomer(i, peers).(raft := Step(r, Request(c, i), 0)), Receive(Request(c, i)));
  }

  /** The vote of one peer makes the candidate leader, and the other peer gets an append. */
  lemma OneVoteWins(decode: Decoder, n: NodeState, i: Id, peers: seq<Id>, v: Id, p: Id) returns (m: Message)
    requires Stands(n, i, peers) && |peers| == 2 && v != i && p in peers
    ensures m in Region(decode, n, Receive(RequestVoteResp(v, i, 1, false, false)), 0).1
    ensures m.AppendEntries? && m.to == p && m.term == 1
  {
    var vote := RequestVoteResp(v, i, 1, false, false);
    m := VoteElects(n.raft, i, peers, v, p);
    FinishEffect(decode, n.(raft := Step(n.raft, vote, 0)), Receive(vote));
  }

  lemma VoteElects(r: RaftState, i: Id, peers: seq<Id>, v: Id, p: Id) returns (m: Message)
    requires r.id == i && r.peers == peers && r.role == Candidate && r.currentTerm == 1 && r.votes == map[i := true]
    requires r.msgs == [] && |peers| == 2 && v != i && p in peers
    ensures m in Step(r, RequestVoteResp(v, i, 1, false, false), 0).msgs
    ensures m.AppendEntries? && m.to == p && m.term == 1
  {
    var won := r.(votes := r.votes[v := true]);
    assert Granted(won.votes) == {i, v};
    var l := Promote(won);
    m := HeartbeatAmong(l, p);
    assert Step(r, RequestVoteResp(v, i, 1, false, false), 0) == BroadcastHeartbeat(l);
  }

  lemma HeartbeatAmong(l: RaftState, p: Id) returns (m: Message)
    requires l.msgs == [] && p in l.peers
    ensures m in BroadcastHeartbeat(l).msgs && m.AppendEntries? && m.to == p && m.term == l.currentTerm
  {
    var k :| 0 <= k < |l.peers| && l.peers[k] == p;
    m := BroadcastHeartbeat(l).msgs[k];
  }

  ghost function Three(): State {
    State(map["a" := Newcomer("a", ["b", "c"]), "b" := Newcomer("b", ["a", "c"]), "c" := Newcomer("c", ["a", "b"])], {})
  }

  lemma ThreeStart()
    ensures Init(Three())
  {
    var s := Three();
    assert s.nodes.Keys == {"a", "b", "c"};
    forall i | i in s.nodes ensures Configured(s.nodes.Keys, i, s.nodes[i].raft) && Fresh(s.nodes[i]) {
      assert 0 < s.nodes[i].raft.baseElectionTimeout;
    }
  }

  ghost function Last(run: seq<State>): State
    requires |run| > 0
  {
    run[|run| - 1]
  }

  /** Two of the three stand in the first term. */
  lemma BothStand(decode: Decoder) returns (run: seq<State>)
    ensures RunWithRestarts(decode, run)
    ensures var s := Last(run);
            && s.nodes.Keys == {"a", "b", "c"} && s.nodes["c"] == Newcomer("c", ["a", "b"])
            && Stands(s.nodes["a"], "a", ["b", "c"]) && Stands(s.nodes["b"], "b", ["a", "c"])
            && Request("a", "b") in s.net && Request("a", "c") in s.net
  {
    ThreeStart();
    run := StandsUp(decode, [Three()], "a", ["b", "c"]);
    assert "b" in ["b", "c"] && "c" in ["b", "c"];
    run := StandsUp(decode, run, "b", ["a", "c"]);
  }

  lemma StandsUp(decode: Decoder, run: seq<State>, i: Id, peers: seq<Id>) returns (run': seq<State>)
    requires RunWithRestarts(decode, run) && i in Last(run).nodes && Last(run).nodes[i] == Newcomer(i, peers) && |peers| == 2
    ensures RunWithRestarts(decode, run') && Last(run').nodes.Keys == Last(run).nodes.Keys
    ensures Last(run').nodes == Last(run).nodes[i := Last(run').nodes[i]] && Stands(Last(run').nodes[i], i, peers)
    ensures Last(run).net <= Last(run').net && forall p :: p in peers ==> Request(i, p) in Last(run').net
  {
    NewcomerStands(decode, i, peers);
    Goes(decode, run, i, Timer);
    run' := run + [After(decode, Last(run), i, Timer)];
  }

  /** The third votes for one of them. */
  lemma ThirdGrants(decode: Decoder, run: seq<State>) returns (run': seq<State>)
    requires RunWithRestarts(decode, run)
    requires var s := Last(run);
             s.nodes.Keys == {"a", "b", "c"} && s.nodes["c"] == Newcomer("c", ["a", "b"]) && Request("a", "c") in s.net
    ensures RunWithRestarts(decode, run') && run < run' && Last(run').nodes.Keys == {"a", "b", "c"}
    ensures Last(run').nodes["a"] == Last(run).nodes["a"] && Last(run').nodes["b"] == Last(run).nodes["b"]
    ensures Last(run).net <= Last(run').net && RequestVoteResp("c", "a", 1, false, false) in Last(run').net
  {
    NewcomerGrants(decode, "c", ["a", "b"], "a");
    Goes(decode, run, "c", Receive(Request("a", "c")));
    run' := run + [After(decode, Last(run), "c", Receive(Request("a", "c")))];
  }

  /** That makes it leader, and it sends an append to the other. */
  lemma OneWins(decode: Decoder, run: seq<State>) returns (run': seq<State>, m: Message)
    requires RunWithRestarts(decode, run)
    requires var s := Last(run);
             && s.nodes.Keys == {"a", "b", "c"} && Stands(s.nodes["a"], "a", ["b", "c"])
             && RequestVoteResp("c", "a", 1, false, false) in s.net
    ensures RunWithRestarts(decode, run') && run < run'
    ensures Last(run').nodes.Keys == {"a", "b", "c"} && Last(run').nodes["b"] == Last(run).nodes["b"]
    ensures Last(run).net <= Last(run').net
    ensures m in Last(run').net && m.AppendEntries? && m.to == "b" && m.term == 1
  {
    var vote := RequestVoteResp("c", "a", 1, false, false);
    m := OneVoteWins(decode, Last(run).nodes["a"], "a", ["b", "c"], "c", "b");
    Goes(decode, run, "a", Receive(vote));
    run' := run + [After(decode, Last(run), "a", Receive(vote))];
  }

  /** There is a run in which a node stands in a term, and so votes for itself, and later grants that vote to another. */
  lemma VotesTwice(decode: Decoder) returns (run: seq<State>, k: nat)
    ensures RunWithRestarts(decode, run) && k < |run| && "b" in run[k].nodes
    ensures var r := run[k].nodes["b"].raft;
            r.role == Candidate && r.currentTerm == 1 && r.votedFor == "b"
    ensures RequestVoteResp("b", "a", 1, false, false) in Last(run).net
  {
    var first := BothStand(decode);
    k := |first| - 1;
    var ps := RunFair(decode, first);
    assert FairAt(first, ps, k);
    assert VoterSettled(first[k].nodes.Keys, ps[k], "b", first[k].nodes["b"]);
    var second := ThirdGrants(decode, first);
    var third, m := OneWins(decode, second);
    run := RestartMayVoteTwice(decode, third, "b", m, Request("a", "b"));
    assert run[k] == third[k] == second[k] == first[k];
  }
}
