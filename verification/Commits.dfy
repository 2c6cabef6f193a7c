/** How the commit index spreads from the leader to its followers, and that nothing committed waits to be applied. */
module Commits {
  import opened Types
  import opened RaftSpec
  import opened Kv
  import opened NodeSpec
  import opened Cluster
  import opened History
  import opened Frames
  import opened Regions
  import opened Invariant
  import opened Safety
  import opened Answers
  import Runs

  // ---- Taking over the leader's commit index

  /**
   In any state, a follower whose leader is no further stays where it is; otherwise it goes as far as both the
   leader and the end of the append allow.
   */
  lemma FollowCommitMeans(commitIndex: nat, leaderCommit: nat, lastNew: nat, n: nat)
    ensures var c := FollowCommit(commitIndex, leaderCommit, lastNew);
            && (leaderCommit <= commitIndex ==> c == commitIndex)
            && (leaderCommit > commitIndex ==>
                  c <= leaderCommit && c <= lastNew && (n <= leaderCommit && n <= lastNew ==> n <= c))
  {
  }

  /** The one way for a commit index to fall: an append that ends below it and claims a commit index above it. */
  lemma CommitFallsExactly(commitIndex: nat, leaderCommit: nat, lastNew: nat)
    ensures FollowCommit(commitIndex, leaderCommit, lastNew) < commitIndex <==> lastNew < commitIndex < leaderCommit
  {
  }

  lemma AcceptedCommits(r: RaftState, m: Message, draw: nat)
    requires m.AppendEntries? && m.term >= r.currentTerm && Consistent(r.log, m)
    requires m.leaderCommit <= m.prevLogIndex + |m.entries|
    ensures Step(r, m, draw).commitIndex == if m.leaderCommit > r.commitIndex then m.leaderCommit else r.commitIndex
  {
    StepDownKeeps(r, m, draw);
    var s := StepDown(r, m, draw);
    RecogniseKeeps(s, m, draw);
    AnswerAccepted(Recognise(s, m, draw), m);
  }

  /** No append of a run claims a commit index beyond its own end. */
  lemma AppendsSensible(decode: Decoder, run: seq<State>, k: nat, m: Message)
    requires Run(decode, run) && k < |run| && m in run[k].net && m.AppendEntries?
    ensures m.leaderCommit <= m.prevLogIndex + |m.entries|
  {
    var hs := RunGood(decode, run);
    MessageAt(decode, run, hs, k, m);
  }

  /**
   Without restarts, a node that accepts an append has committed, when the section ends, whatever it or the sender
   had committed. One that refuses it has committed what it had.
   */
  lemma FollowerCommits(decode: Decoder, run: seq<State>, k: nat, i: Id, m: Message, draw: nat)
    requires Run(decode, run) && 0 < k < |run| && NodeStep(decode, run[k - 1], run[k], i, Receive(m), draw)
    requires m.AppendEntries?
    ensures At(run, k, i)
    ensures var r := RaftOf(run, k - 1, i);
            RaftOf(run, k, i).commitIndex ==
              if m.term >= r.currentTerm && Anchored(r.log, m) && m.leaderCommit > r.commitIndex then m.leaderCommit
              else r.commitIndex
  {
    Runs.Subsumes(decode, run);
    AppendAnswer(decode, run, k, i, m, draw);
    AnchorAtZero(decode, run, k - 1, i, m);
    AppendsSensible(decode, run, k - 1, m);
    AnsweredStays(decode, run[k - 1].nodes[i], m, draw);
    var r := RaftOf(run, k - 1, i);
    if m.term >= r.currentTerm && Anchored(r.log, m) {
      AcceptedCommits(r, m, draw);
    }
  }

  // ---- Applying

  /** Only an append or the reply to one can move the commit index. */
  lemma OthersCommitNothing(r: RaftState, input: Input, draw: nat)
    requires input.Receive? ==> input.m.RequestVote? || input.m.RequestVoteResp?
    ensures Advance(r, input, draw).commitIndex == r.commitIndex
  {
    match input
    case Timer => TickGrows(r, draw);
    case Client(data) => ProposeGrows(r, data);
    case Receive(m) =>
      StepDownKeeps(r, m, draw);
      if m.RequestVote? {
        RequestVoteGrows(StepDown(r, m, draw), m);
      } else {
        RequestVoteRespGrows(StepDown(r, m, draw), m, draw);
      }
  }

  /**
   From any state at all, a tick, an append and the reply to one leave nothing to apply: what is committed and in
   the log has been handed over by the end of the section.
   */
  lemma NothingLeft(decode: Decoder, n: NodeState, input: Input, draw: nat)
    requires input.Timer? || (input.Receive? && (input.m.AppendEntries? || input.m.AppendEntriesResp?))
    requires |Advance(n.raft, input, draw).log| > 0
    ensures var r := Region(decode, n, input, draw).0.raft;
            r.lastApplied >= r.commitIndex || r.lastApplied >= |r.log| - 1
  {
    FinishEffect(decode, n.(raft := Advance(n.raft, input, draw)), input);
  }

  /** All that is committed has been applied. */
  predicate CaughtUp(n: NodeState) {
    n.raft.lastApplied == n.raft.commitIndex == |n.applied|
  }

  lemma SectionCatchesUp(decode: Decoder, n: NodeState, a: RaftState, input: Input)
    requires NodeSettled(decode, n) && CaughtUp(n)
    requires a.lastApplied == n.raft.lastApplied <= a.commitIndex < |a.log|
    requires input.Timer? || input.Client? || (input.Receive? && (input.m.RequestVote? || input.m.RequestVoteResp?)) ==>
               a.commitIndex == n.raft.commitIndex
    ensures CaughtUp(Finish(decode, n.(raft := a), input).0)
  {
    FinishEffect(decode, n.(raft := a), input);
    ApplicableExactly(a);
  }

  lemma StepCatchesUp(decode: Decoder, s: State, s': State, h: History, h': History, i: Id, input: Input, draw: nat)
    requires Good(decode, s, h) && Good(decode, s', h') && NodeStep(decode, s, s', i, input, draw)
    requires !(input.Client? && s.nodes[i].raft.role != Leader) && CaughtUp(s.nodes[i])
    ensures CaughtUp(s'.nodes[i])
  {
    var n := s.nodes[i];
    var a := Advance(n.raft, input, draw);
    assert NodeSettled(decode, s.nodes[i]);
    CommitRises(Rafts(s), s.net, h, i, input, draw);
    StepShape(decode, s, s', i, input, draw);
    FinishEffect(decode, n.(raft := a), input);
    assert a.commitIndex < |a.log| by { assert NodeOk(Rafts(s').Keys, h', s'.net, i, Rafts(s')[i]); }
    if !input.Receive? || input.m.RequestVote? || input.m.RequestVoteResp? {
      OthersCommitNothing(n.raft, input, draw);
    }
    SectionCatchesUp(decode, n, a, input);
  }

  lemma NextCatchesUp(decode: Decoder, s: State, s': State, h: History, h': History, i: Id)
    requires Good(decode, s, h) && Good(decode, s', h') && Next(decode, s, s') && i in s.nodes && CaughtUp(s.nodes[i])
    ensures i in s'.nodes && CaughtUp(s'.nodes[i])
  {
    if j, input, draw :| NodeStep(decode, s, s', j, input, draw) {
      if j == i && !(input.Client? && s.nodes[i].raft.role != Leader) {
        StepCatchesUp(decode, s, s', h, h', i, input, draw);
      }
    } else {
      var m :| PreVoteArrives(s, s', m);
    }
  }

  /**
   Without restarts, between critical sections every node has applied exactly what it has committed: the section in
   which an entry is committed is the section in which it is applied.
   */
  lemma CommittedIsApplied(decode: Decoder, run: seq<State>, k: nat, i: Id)
    requires Run(decode, run) && At(run, k, i)
    ensures CaughtUp(run[k].nodes[i])
  {
    var hs := RunGood(decode, run);
    CaughtUpSoFar(decode, run, hs, k, i);
  }

  lemma {:induction false} CaughtUpSoFar(decode: Decoder, run: seq<State>, hs: seq<History>, k: nat, i: Id)
    requires Run(decode, run) && Chronicle(decode, run, hs) && At(run, k, i)
    ensures CaughtUp(run[k].nodes[i])
    decreases k
  {
    if k == 0 {
      assert Fresh(run[0].nodes[i]);
    } else {
      SameMembers(decode, run, hs, k, k - 1);
      CaughtUpSoFar(decode, run, hs, k - 1, i);
      assert Moves(decode, run, k) && GoodAt(decode, run, hs, k - 1) && GoodAt(decode, run, hs, k);
      NextCatchesUp(decode, run[k - 1], run[k], hs[k - 1], hs[k], i);
    }
  }
}
