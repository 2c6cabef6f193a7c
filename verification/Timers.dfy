/** Clocks in runs with restarts, and leader stability from any state of a run in which the leader has been heard. */
module Timers {
  import opened Types
  import opened RaftSpec
  import opened Kv
  import opened NodeSpec
  import opened Cluster
  import opened Invariant
  import opened Regions
  import opened Runs
  import opened Elections
  import opened ElectionRuns
  import opened StableLeader
  import Voting

  /** A timeout is from the base to below twice the base, and a leader's heartbeat clock is short of its interval. */
  predicate ClockOk(r: RaftState) {
    && r.baseElectionTimeout <= r.electionTimeout < 2 * r.baseElectionTimeout
    && (r.role == Leader ==> r.heartbeatElapsed < Interval(r))
  }

  lemma BecomeLeaderClock(s: RaftState)
    requires s.baseElectionTimeout <= s.electionTimeout < 2 * s.baseElectionTimeout
    ensures ClockOk(BecomeLeader(s))
  {
  }

  lemma BecomeCandidateClock(s: RaftState, draw: nat)
    requires draw < s.baseElectionTimeout
    ensures ClockOk(BecomeCandidate(s, draw))
  {
    BecomeLeaderClock(Nominate(s, draw));
  }

  lemma TickClock(r: RaftState, draw: nat)
    requires ClockOk(r) && draw < r.baseElectionTimeout
    ensures ClockOk(Tick(r, draw))
  {
    if r.role != Leader {
      BecomeCandidateClock(r.(electionElapsed := 0, leaderActive := false), draw);
    }
  }

  lemma ProposeClock(r: RaftState, data: Bytes)
    requires ClockOk(r)
    ensures ClockOk(Propose(r, data).0)
  {
  }

  lemma StepDownClock(r: RaftState, m: Message, draw: nat)
    requires ClockOk(r) && draw < r.baseElectionTimeout
    ensures ClockOk(StepDown(r, m, draw)) && StepDown(r, m, draw).baseElectionTimeout == r.baseElectionTimeout
  {
  }

  lemma AppendClock(s: RaftState, m: Message, draw: nat)
    requires ClockOk(s) && m.AppendEntries? && draw < s.baseElectionTimeout
    ensures ClockOk(HandleAppendEntries(s, m, draw))
    ensures m.term >= s.currentTerm ==> HandleAppendEntries(s, m, draw).electionElapsed == 0
  {
    AnswerClock(Recognise(s, m, draw), m);
  }

  lemma AnswerClock(f: RaftState, m: Message)
    requires m.AppendEntries?
    ensures var a := AnswerAppend(f, m);
            && a.electionElapsed == f.electionElapsed && a.electionTimeout == f.electionTimeout
            && a.baseElectionTimeout == f.baseElectionTimeout && a.role == f.role
            && a.heartbeatElapsed == f.heartbeatElapsed && a.heartbeatTimeout == f.heartbeatTimeout
  {
    if Consistent(f.log, m) {
      AnswerAccepted(f, m);
    }
  }

  lemma RequestVoteClock(s: RaftState, m: Message)
    requires ClockOk(s) && m.RequestVote?
    ensures ClockOk(HandleRequestVote(s, m))
  {
  }

  lemma RequestVoteRespClock(s: RaftState, m: Message, draw: nat)
    requires ClockOk(s) && m.RequestVoteResp? && draw < s.baseElectionTimeout
    ensures ClockOk(HandleRequestVoteResp(s, m, draw))
  {
    if s.role == Candidate {
      if m.isPreVote {
        BecomeCandidateClock(s.(preVotes := CountPreVote(s, m)), draw);
      } else {
        BecomeLeaderClock(s.(votes := s.votes[m.from := !m.reject]));
      }
    }
  }

  lemma AppendRespClock(s: RaftState, m: Message)
    requires ClockOk(s) && m.AppendEntriesResp?
    ensures ClockOk(HandleAppendEntriesResp(s, m))
  {
  }

  lemma HandleClock(s: RaftState, m: Message, draw: nat)
    requires ClockOk(s) && draw < s.baseElectionTimeout
    ensures ClockOk(Handle(s, m, draw))
  {
    match m
    case RequestVote(_, _, _, _, _, _) => RequestVoteClock(s, m);
    case RequestVoteResp(_, _, _, _, _) => RequestVoteRespClock(s, m, draw);
    case AppendEntries(_, _, _, _, _, _, _) => AppendClock(s, m, draw);
    case AppendEntriesResp(_, _, _, _, _) => AppendRespClock(s, m);
  }

  lemma AdvanceClock(r: RaftState, input: Input, draw: nat)
    requires ClockOk(r) && draw < r.baseElectionTimeout
    ensures ClockOk(Advance(r, input, draw))
  {
    match input
    case Timer => TickClock(r, draw);
    case Client(data) => ProposeClock(r, data);
    case Receive(m) =>
      StepDownClock(r, m, draw);
      HandleClock(StepDown(r, m, draw), m, draw);
  }

  // ---- Runs

  ghost predicate OnTime(s: State) {
    forall i {:trigger ClockOk(s.nodes[i].raft)} :: i in s.nodes ==> ClockOk(s.nodes[i].raft)
  }

  lemma RegionClock(decode: Decoder, n: NodeState, input: Input, draw: nat)
    requires ClockOk(n.raft) && draw < n.raft.baseElectionTimeout
    ensures ClockOk(Region(decode, n, input, draw).0.raft)
  {
    AdvanceClock(n.raft, input, draw);
    FinishEffect(decode, n.(raft := Advance(n.raft, input, draw)), input);
  }

  lemma NextOnTime(decode: Decoder, s: State, s': State)
    requires OnTime(s) && NextOrRestart(decode, s, s')
    ensures OnTime(s')
  {
    if i, draw :| RestartStep(s, s', i, draw) {
      forall j | j in s'.nodes ensures ClockOk(s'.nodes[j].raft) { assert ClockOk(s.nodes[j].raft); }
    } else if i, input, draw :| NodeStep(decode, s, s', i, input, draw) {
      forall j | j in s'.nodes ensures ClockOk(s'.nodes[j].raft) {
        assert ClockOk(s.nodes[j].raft);
        if j == i {
          RegionClock(decode, s.nodes[i], input, draw);
        }
      }
    } else {
      var m :| PreVoteArrives(s, s', m);
      forall j | j in s'.nodes ensures ClockOk(s'.nodes[j].raft) { assert ClockOk(s.nodes[j].raft); }
    }
  }

  lemma RunOnTime(decode: Decoder, run: seq<State>, k: nat, i: Id)
    requires RunWithRestarts(decode, run) && At(run, k, i)
    ensures ClockOk(RaftOf(run, k, i))
  {
    var inv := (s: State, g: ()) => OnTime(s);
    var next := (g: (), s: State, g': ()) => true;
    assert Starts(inv, ()) by {
      forall s | Init(s) ensures inv(s, ()) {
        forall j | j in s.nodes ensures ClockOk(s.nodes[j].raft) { assert Fresh(s.nodes[j]); }
      }
    }
    assert Continues(decode, inv, next) by {
      forall s, s', g | inv(s, g) && NextOrRestart(decode, s, s') ensures exists g' :: inv(s', g') && next(g, s', g') {
        NextOnTime(decode, s, s');
        assert inv(s', ()) && next(g, s', ());
      }
    }
    var gs := Record(decode, run, inv, next, ());
    assert RecordedAt(run, gs, inv, k);
    assert ClockOk(run[k].nodes[i].raft);
  }

  // ---- What a tick does

  /** What is left of a call when the section is over, apart from what has been applied. */
  lemma TimerSection(decode: Decoder, n: NodeState, draw: nat)
    ensures var (n', outs) := Region(decode, n, Timer, draw);
            var a := Tick(n.raft, draw);
            && n'.raft == a.(msgs := [], lastApplied := n'.raft.lastApplied) && outs == a.msgs
            && n'.stored == HardState(a.currentTerm, a.votedFor)
  {
    FinishEffect(decode, n.(raft := Tick(n.raft, draw)), Timer);
  }

  lemma TickStands(r: RaftState, draw: nat)
    requires r.role != Leader && r.msgs == [] && Numbered(r.log)
    ensures var a := Tick(r, draw);
            if r.electionElapsed + 1 >= r.electionTimeout
            then Voting.Stands(r.(leaderActive := false), a.(msgs := []), a.msgs, draw)
            else a == r.(electionElapsed := r.electionElapsed + 1)
  {
    if r.electionElapsed + 1 >= r.electionTimeout {
      Voting.BecomeCandidateStands(r.(electionElapsed := 0, leaderActive := false), draw);
    }
  }

  /**
   A node that does not lead stands when its clock reaches its timeout, candidate or not, in a new term and with no
   leader known; the pair is stored before the requests leave. Until then only the clock moves.
   */
  lemma TimeoutStands(decode: Decoder, run: seq<State>, k: nat, i: Id, draw: nat)
    requires RunWithRestarts(decode, run) && At(run, k, i) && RaftOf(run, k, i).role != Leader
    ensures |RaftOf(run, k, i).log| > 0
    ensures var r := RaftOf(run, k, i);
            var (n, outs) := Region(decode, run[k].nodes[i], Timer, draw);
            if r.electionElapsed + 1 >= r.electionTimeout
            then Voting.Stands(r.(leaderActive := false), n.raft, outs, draw) && n.stored == HardState(r.currentTerm + 1, i)
            else outs == [] && n.raft == r.(electionElapsed := r.electionElapsed + 1, lastApplied := n.raft.lastApplied)
  {
    Voting.AtRest(decode, run, k, i);
    var r := RaftOf(run, k, i);
    var a := Tick(r, draw);
    TickStands(r, draw);
    TimerSection(decode, run[k].nodes[i], draw);
    if r.electionElapsed + 1 >= r.electionTimeout {
      StoodApplied(r.(leaderActive := false), a.(msgs := []), Region(decode, run[k].nodes[i], Timer, draw).0.raft, a.msgs, draw);
    }
  }

  /** Having stood does not depend on what has been applied. */
  lemma StoodApplied(r: RaftState, a: RaftState, b: RaftState, outs: seq<Message>, draw: nat)
    requires |r.log| > 0 && Voting.Stands(r, a, outs, draw) && b == a.(lastApplied := b.lastApplied)
    ensures Voting.Stands(r, b, outs, draw)
  {
  }

  lemma TickBeats(r: RaftState, draw: nat)
    requires r.role == Leader && r.msgs == []
    ensures var a := Tick(r, draw);
            if r.heartbeatElapsed + 1 >= r.heartbeatTimeout
            then Voting.Addresses(r, a.msgs) && a == r.(heartbeatElapsed := 0, heartbeatAcked := 1, msgs := a.msgs)
            else a == r.(heartbeatElapsed := r.heartbeatElapsed + 1)
  {
    BroadcastSays(r.(heartbeatElapsed := 0, heartbeatAcked := 1), r);
  }

  /** A leader sends one append to each peer when its clock reaches the heartbeat interval, and nothing until then. */
  lemma HeartbeatDue(decode: Decoder, run: seq<State>, k: nat, i: Id, draw: nat)
    requires RunWithRestarts(decode, run) && At(run, k, i) && RaftOf(run, k, i).role == Leader
    ensures var r := RaftOf(run, k, i);
            var (n, outs) := Region(decode, run[k].nodes[i], Timer, draw);
            if r.heartbeatElapsed + 1 >= r.heartbeatTimeout
            then && Voting.Addresses(r, outs)
                 && n.raft == r.(heartbeatElapsed := 0, heartbeatAcked := 1, lastApplied := n.raft.lastApplied)
            else outs == [] && n.raft == r.(heartbeatElapsed := r.heartbeatElapsed + 1, lastApplied := n.raft.lastApplied)
  {
    Voting.AtRest(decode, run, k, i);
    TickBeats(RaftOf(run, k, i), draw);
    TimerSection(decode, run[k].nodes[i], draw);
  }

  /** A broadcast says the same from any state with the same books and log. */
  lemma BroadcastSays(b: RaftState, r: RaftState)
    requires b.msgs == [] && b.id == r.id && b.peers == r.peers && b.currentTerm == r.currentTerm
    requires b.nextIndex == r.nextIndex && b.log == r.log && b.commitIndex == r.commitIndex
    ensures Voting.Addresses(r, BroadcastHeartbeat(b).msgs)
  {
    var a := BroadcastHeartbeat(b);
    assert a.msgs == seq(|b.peers|, k requires 0 <= k < |b.peers| => HeartbeatFor(b, b.peers[k]));
    forall k | 0 <= k < |a.msgs| ensures a.msgs[k] == HeartbeatFor(r, r.peers[k]) {
      assert a.msgs[k] == HeartbeatFor(b, b.peers[k]);
    }
  }

  // ---- Stability

  /** A member and all the others. */
  ghost function CohortOf(s: State, i: Id): Cohort
    requires i in s.nodes
  {
    Cohort(s.nodes[i].raft, map j | j in s.nodes && j != i :: s.nodes[j].raft)
  }

  /** In the leader's term, with a clock at most a tick ahead and a base timeout above the leader's interval. */
  predicate Follows(f: RaftState, l: RaftState) {
    && f.role == Follower && f.currentTerm == l.currentTerm
    && f.electionElapsed <= l.heartbeatElapsed + 1 && Interval(l) < f.baseElectionTimeout
  }

  lemma AppendHeard(r: RaftState, m: Message, draw: nat)
    requires m.AppendEntries? && m.term >= r.currentTerm && m.from != NONE
    ensures var a := Step(r, m, draw);
            && a.role == Follower && a.currentTerm == m.term && a.electionElapsed == 0
            && a.leaderActive && a.leaderId == m.from
            && a.electionTimeout == (if m.term > r.currentTerm || r.role != Follower then r.baseElectionTimeout + draw else r.electionTimeout)
  {
    var f := Recognise(StepDown(r, m, draw), m, draw);
    assert f.role == Follower && f.currentTerm == m.term && f.electionElapsed == 0 && f.leaderActive && f.leaderId == m.from;
    AnswerClock(f, m);
    AnswerKeepsLeader(f, m);
  }

  lemma AnswerKeepsLeader(f: RaftState, m: Message)
    requires m.AppendEntries?
    ensures var a := AnswerAppend(f, m);
            a.leaderId == f.leaderId && a.leaderActive == f.leaderActive && a.currentTerm == f.currentTerm
  {
    if Consistent(f.log, m) {
      AnswerAccepted(f, m);
    }
  }

  /** A node that takes an append of its own or a later term follows its sender, with its clock at zero. */
  lemma AppendSetsClock(decode: Decoder, run: seq<State>, k: nat, j: Id, m: Message, draw: nat)
    requires RunWithRestarts(decode, run) && 0 < k < |run| && NodeStep(decode, run[k - 1], run[k], j, Receive(m), draw)
    requires m.AppendEntries? && m.term >= RaftOf(run, k - 1, j).currentTerm
    ensures At(run, k, j)
    ensures var f := RaftOf(run, k, j);
            && f.role == Follower && f.currentTerm == m.term && f.electionElapsed == 0
            && f.leaderActive && f.leaderId == m.from
            && var r := RaftOf(run, k - 1, j);
               f.electionTimeout == if m.term > r.currentTerm || r.role != Follower then r.baseElectionTimeout + draw else r.electionTimeout
  {
    var s, r := run[k - 1], RaftOf(run, k - 1, j);
    var ps := RunFair(decode, run);
    assert FairAt(run, ps, k - 1);
    Named(s, ps[k - 1]);
    assert SpokenOk(s.nodes.Keys, ps[k - 1], s.nodes, m);
    AppendHeard(r, m, draw);
    FinishEffect(decode, s.nodes[j].(raft := Step(r, m, draw)), Receive(m));
  }

  /** In any state of a run, a leader that all others follow heads a steady cohort. */
  lemma SteadyInRuns(decode: Decoder, run: seq<State>, k: nat, i: Id)
    requires RunWithRestarts(decode, run) && At(run, k, i) && RaftOf(run, k, i).role == Leader
    requires forall j :: j in run[k].nodes && j != i ==> Follows(run[k].nodes[j].raft, RaftOf(run, k, i))
    ensures Steady(CohortOf(run[k], i), RaftOf(run, k, i).currentTerm)
  {
    var c, l := CohortOf(run[k], i), RaftOf(run, k, i);
    var ps := RunFair(decode, run);
    assert FairAt(run, ps, k);
    assert VoterSettled(run[k].nodes.Keys, ps[k], i, run[k].nodes[i]);
    RunOnTime(decode, run, k, i);
    assert c.followers.Keys == run[k].nodes.Keys - {i};
    forall p | p in c.followers ensures FollowerSteady(c.followers[p], l.currentTerm, l.heartbeatElapsed + 1, Interval(l)) {
      RunOnTime(decode, run, k, p);
    }
  }

  /** From there on, with clocks in step and messages delivered at once, nobody ever leaves the leader's term. */
  lemma StableInRuns(decode: Decoder, run: seq<State>, k: nat, i: Id, beats: seq<Beat>)
    requires RunWithRestarts(decode, run) && At(run, k, i) && RaftOf(run, k, i).role == Leader
    requires forall j :: j in run[k].nodes && j != i ==> Follows(run[k].nodes[j].raft, RaftOf(run, k, i))
    ensures var d, term := Rounds(CohortOf(run[k], i), beats), RaftOf(run, k, i).currentTerm;
            && d.leader.role == Leader && d.leader.currentTerm == term
            && forall p :: p in d.followers ==> d.followers[p].role == Follower && d.followers[p].currentTerm == term
  {
    SteadyInRuns(decode, run, k, i);
    LeaderIsStable(CohortOf(run[k], i), beats, RaftOf(run, k, i).currentTerm);
  }
}
