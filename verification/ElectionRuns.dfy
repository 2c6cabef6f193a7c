/** Election safety, durability and one vote per term, in every run in which nodes may restart. */
module ElectionRuns {
  import opened Types
  import opened Kv
  import opened NodeSpec
  import opened Cluster
  import opened Electorate
  import opened Invariant
  import opened Runs
  import opened Elections
  import opened ElectionMoves
  import opened Granting

  /** A poll for every state of a run, the later ones extending the earlier. */
  ghost predicate Polls(run: seq<State>, ps: seq<Poll>) {
    && |ps| == |run| > 0
    && (forall k {:trigger FairAt(run, ps, k)} :: 0 <= k < |run| ==> FairAt(run, ps, k))
    && (forall j, k {:trigger Recalls(ps, j, k)} :: 0 <= j <= k < |run| ==> Recalls(ps, j, k))
    && (forall k, t {:trigger Witnessed(run, ps, k, t)} :: 0 <= k < |run| && t in ps[k].wins ==> Witnessed(run, ps, k, t))
  }

  ghost predicate FairAt(run: seq<State>, ps: seq<Poll>, k: int)
    requires 0 <= k < |run| == |ps|
  {
    FairInRun(run[k], ps[k])
  }

  ghost predicate PollGoes(run: seq<State>, ps: seq<Poll>, k: int)
    requires 0 < k < |run| == |ps|
  {
    PollNext(ps[k - 1], run[k], ps[k])
  }

  ghost predicate Recalls(ps: seq<Poll>, j: int, k: int)
    requires 0 <= j <= k < |ps|
  {
    PollLe(ps[j], ps[k])
  }

  /** Whoever won a term led it at some moment so far, with the votes it won by. */
  ghost predicate Witnessed(run: seq<State>, ps: seq<Poll>, k: int, t: nat)
    requires 0 <= k < |run| == |ps| && t in ps[k].wins
  {
    exists n :: 0 <= n <= k && Leads(run[n], t, ps[k].wins[t])
  }

  lemma RunFair(decode: Decoder, run: seq<State>) returns (ps: seq<Poll>)
    requires RunWithRestarts(decode, run)
    ensures Polls(run, ps)
  {
    var inv := (s: State, p: Poll) => FairInRun(s, p);
    var next := (p: Poll, s: State, q: Poll) => PollNext(p, s, q);
    assert Starts(inv, Poll(map[], {})) by {
      forall s | Init(s) ensures inv(s, Poll(map[], {})) { InitFair(s); }
    }
    assert Continues(decode, inv, next) by {
      forall s, s', p | inv(s, p) && NextOrRestart(decode, s, s') ensures exists q :: inv(s', q) && next(p, s', q) {
        var q := NextFair(decode, s, s', p);
        NextGrants(decode, s, s', p);
        assert inv(s', q) && next(p, s', q);
      }
    }
    ps := Record(decode, run, inv, next, Poll(map[], {}));
    forall k | 0 <= k < |run| ensures FairAt(run, ps, k) { assert RecordedAt(run, ps, inv, k); }
    forall k | 0 < k < |run| ensures PollGoes(run, ps, k) { assert GoesOn(run, ps, next, k); }
    RecordedPolls(run, ps);
  }

  ghost predicate FairInRun(s: State, p: Poll) {
    Fair(s, p) && Grants(s)
  }

  lemma RecordedPolls(run: seq<State>, ps: seq<Poll>)
    requires |ps| == |run| > 0 && ps[0].wins == map[]
    requires forall k {:trigger FairAt(run, ps, k)} :: 0 <= k < |run| ==> FairAt(run, ps, k)
    requires forall k {:trigger PollGoes(run, ps, k)} :: 0 < k < |run| ==> PollGoes(run, ps, k)
    ensures Polls(run, ps)
  {
    var le := (p: Poll, q: Poll) => PollLe(p, q);
    forall k | 0 < k < |run| ensures Rises(ps, le, k) { assert PollGoes(run, ps, k); }
    forall j: nat, k: nat | j <= k < |run| ensures Recalls(ps, j, k) { Ordered(ps, le, j, k); }
    forall k: nat, t: nat | k < |run| && t in ps[k].wins ensures Witnessed(run, ps, k, t) { WinWitnessed(run, ps, k, t); }
  }

  lemma {:induction false} WinWitnessed(run: seq<State>, ps: seq<Poll>, k: nat, t: nat)
    requires |ps| == |run| && k < |run| && t in ps[k].wins
    requires forall n {:trigger PollGoes(run, ps, n)} :: 0 < n < |run| ==> PollGoes(run, ps, n)
    requires ps[0].wins == map[]
    ensures Witnessed(run, ps, k, t)
  {
    assert PollGoes(run, ps, k);
    if t in ps[k - 1].wins {
      WinWitnessed(run, ps, k - 1, t);
      var n :| 0 <= n <= k - 1 && Leads(run[n], t, ps[k - 1].wins[t]);
      assert Leads(run[n], t, ps[k].wins[t]);
    }
  }

  /** Election safety: in a run with any restarts, a term has at most one leader ever. */
  lemma ElectionSafety(decode: Decoder, run: seq<State>, k: nat, i: Id, l: nat, j: Id)
    requires RunWithRestarts(decode, run) && k < |run| && l < |run| && i in run[k].nodes && j in run[l].nodes
    requires run[k].nodes[i].raft.role == Leader && run[l].nodes[j].raft.role == Leader
    requires run[k].nodes[i].raft.currentTerm == run[l].nodes[j].raft.currentTerm
    ensures i == j
  {
    var ps := RunFair(decode, run);
    assert FairAt(run, ps, k) && FairAt(run, ps, l);
    assert VoterSettled(run[k].nodes.Keys, ps[k], i, run[k].nodes[i]);
    assert VoterSettled(run[l].nodes.Keys, ps[l], j, run[l].nodes[j]);
    assert if k <= l then Recalls(ps, k, l) else Recalls(ps, l, k);
  }

  /**
   Durable before visible: between critical sections the saved pair is the pair in memory, and nothing a node
   has ever said is ahead of it, so a restart never takes a node back behind its own words.
   */
  lemma DurableBeforeVisible(decode: Decoder, run: seq<State>, k: nat, i: Id, m: Message)
    requires RunWithRestarts(decode, run) && k < |run| && i in run[k].nodes && m in run[k].net && m.from == i
    requires !((m.RequestVote? || m.RequestVoteResp?) && m.isPreVote)
    ensures var n := run[k].nodes[i];
            n.stored == HardState(n.raft.currentTerm, n.raft.votedFor) && m.term <= n.stored.term
  {
    var ps := RunFair(decode, run);
    assert FairAt(run, ps, k);
    assert VoterSettled(run[k].nodes.Keys, ps[k], i, run[k].nodes[i]);
    assert SpokenOk(run[k].nodes.Keys, ps[k], run[k].nodes, m);
  }

  /** A vote is saved, for the candidate that gets it, by the time the reply that grants it is out. */
  lemma GrantIsSaved(decode: Decoder, run: seq<State>, k: nat, m: Message)
    requires RunWithRestarts(decode, run) && 0 < k < |run| && m in run[k].net && m !in run[k - 1].net
    requires m.RequestVoteResp? && !m.isPreVote && !m.reject
    ensures m.from in run[k].nodes && run[k].nodes[m.from].stored == HardState(m.term, m.to)
  {
    var ps := RunFair(decode, run);
    assert FairAt(run, ps, k - 1);
    assert MovesOrRestarts(decode, run, k);
    var s, s' := run[k - 1], run[k];
    var i, input, draw :| NodeStep(decode, s, s', i, input, draw);
    assert VoterSettled(s.nodes.Keys, ps[k - 1], i, s.nodes[i]);
    if input.Receive? {
      assert SpokenOk(s.nodes.Keys, ps[k - 1], s.nodes, input.m);
    }
    if !(input.Client? && s.nodes[i].raft.role != Leader) {
      AdvanceElectoral(s.nodes[i].raft, input, draw);
      StepShape(decode, s, s', i, input, draw);
      var a := Advance(s.nodes[i].raft, input, draw);
      FinishVote(decode, s.nodes[i].(raft := a), input);
      assert m in Elements(a.msgs);
    }
  }

  /** With any restarts, the replies by which a node grants votes in a term all go to one candidate. */
  lemma OneVotePerTerm(decode: Decoder, run: seq<State>, k: nat, a: Message, b: Message)
    requires RunWithRestarts(decode, run) && k < |run| && a in run[k].net && b in run[k].net
    requires IsGrant(a) && IsGrant(b) && a.from == b.from && a.term == b.term
    ensures a.to == b.to
  {
    var ps := RunFair(decode, run);
    FirstGrant(decode, run, ps, k, a, b);
  }

  lemma {:induction false} FirstGrant(decode: Decoder, run: seq<State>, ps: seq<Poll>, k: nat, a: Message, b: Message)
    requires RunWithRestarts(decode, run) && Polls(run, ps) && k < |run| && a in run[k].net && b in run[k].net
    requires IsGrant(a) && IsGrant(b) && a.from == b.from && a.term == b.term
    ensures a.to == b.to
  {
    assert FairAt(run, ps, k) && GrantStands(run[k].nodes, a) && GrantStands(run[k].nodes, b);
    if a in run[k - 1].net && b in run[k - 1].net {
      FirstGrant(decode, run, ps, k - 1, a, b);
    } else {
      GrantIsSaved(decode, run, k, if a in run[k - 1].net then b else a);
      assert VoterSettled(run[k].nodes.Keys, ps[k], a.from, run[k].nodes[a.from]);
    }
  }
}
