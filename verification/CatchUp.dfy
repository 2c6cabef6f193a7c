/** A leader brings a lagging or diverging follower up to date in fewer rounds than its starting nextIndex. */
module CatchUp {
  import opened Types
  import opened RaftSpec
  import opened Kv
  import opened Cluster
  import opened History
  import opened Completeness
  import opened LocalSteps
  import opened ReplicationSteps
  import opened Regions
  import opened Frames
  import opened Invariant
  import opened Safety

  // ---- Rounds of any kind, each with an input of its own

  ghost predicate Chain<T(!new), D(!new)>(go: (T, D) -> T, talk: seq<T>, draws: seq<D>) {
    |talk| == |draws| + 1 && forall n :: 0 <= n < |draws| ==> talk[n + 1] == go(talk[n], draws[n])
  }

  /** Round k is the first that is right. */
  ghost predicate First<T(!new), D(!new)>(ok: (T, D) -> bool, talk: seq<T>, draws: seq<D>, k: nat) {
    && k < |draws| < |talk|
    && ok(talk[k], draws[k]) && forall n :: 0 <= n < k ==> !ok(talk[n], draws[n])
  }

  /** A right round ends it; any other lowers the rank, which is never zero. */
  ghost predicate Approaches<T(!new), D(!new)>(go: (T, D) -> T, ok: (T, D) -> bool, alive: T -> bool, over: T -> bool, rank: T -> nat) {
    && (forall x :: alive(x) ==> rank(x) > 0)
    && forall x, d :: alive(x) ==> if ok(x, d) then over(go(x, d)) else alive(go(x, d)) && rank(go(x, d)) < rank(x)
  }

  /** The first right round comes before the rank is used up. */
  lemma {:induction false} Reach<T(!new), D(!new)>(go: (T, D) -> T, ok: (T, D) -> bool, alive: T -> bool, over: T -> bool,
                                                   rank: T -> nat, talk: seq<T>, draws: seq<D>, n: nat)
    returns (k: nat)
    requires Approaches(go, ok, alive, over, rank) && Chain(go, talk, draws)
    requires n < |talk| && alive(talk[n]) && n + rank(talk[n]) <= |draws|
    ensures n <= k < n + rank(talk[n]) && ok(talk[k], draws[k]) && over(talk[k + 1])
    ensures forall j :: n <= j < k ==> !ok(talk[j], draws[j])
    decreases |talk| - n
  {
    if ok(talk[n], draws[n]) {
      k := n;
    } else {
      k := Reach(go, ok, alive, over, rank, talk, draws, n + 1);
    }
  }

  // ---- Appends and replies

  datatype Pair = Pair(leader: RaftState, follower: RaftState)

  /** What the follower makes of the leader's next append. */
  function Receives(p: Pair, draw: nat): RaftState {
    Step(p.follower.(msgs := []), HeartbeatFor(p.leader, p.follower.id), draw)
  }

  /** What the two would draw in a round. */
  datatype Draws = Draws(follower: nat, leader: nat)

  /** One round: the leader sends, the follower answers, the leader takes the answer. */
  function Exchange(p: Pair, d: Draws): Pair {
    var f := Receives(p, d.follower);
    var l := if f.msgs == [] then p.leader else Step(p.leader.(msgs := []), f.msgs[0], d.leader);
    Pair(l.(msgs := []), f.(msgs := []))
  }

  /** The follower's answer to the next append is a success. */
  predicate Succeeds(p: Pair, d: Draws) {
    var f := Receives(p, d.follower);
    |f.msgs| == 1 && f.msgs[0].AppendEntriesResp? && !f.msgs[0].reject
  }

  /** A succession of rounds, each with draws of its own. */
  ghost predicate Talk(talk: seq<Pair>, draws: seq<Draws>) {
    Chain(ExchangeFunction(), talk, draws)
  }

  function ExchangeFunction(): (Pair, Draws) -> Pair {
    (p, d) => Exchange(p, d)
  }

  function SucceedsFunction(): (Pair, Draws) -> bool {
    (p, d) => Succeeds(p, d)
  }

  function Next(p: Pair): nat {
    Get(p.leader.nextIndex, p.follower.id)
  }

  // ---- One round inside a cluster

  /** The pair is a leader and a follower, not ahead of it, of a cluster that satisfies the invariant. */
  ghost predicate Live(nodes: map<Id, RaftState>, net: set<Message>, h: History, p: Pair) {
    && Inv(nodes, net, h)
    && p.leader.id in nodes && nodes[p.leader.id] == p.leader
    && p.follower.id in nodes && nodes[p.follower.id] == p.follower
    && p.leader.id != p.follower.id
    && p.leader.role == Leader && p.follower.currentTerm <= p.leader.currentTerm
    && p.leader.msgs == [] && p.follower.msgs == []
  }

  /** The leader's next append may be in the network. */
  lemma Sends(nodes: map<Id, RaftState>, net: set<Message>, h: History, p: Pair)
    requires Live(nodes, net, h, p)
    ensures Inv(nodes, net + {HeartbeatFor(p.leader, p.follower.id)}, h)
  {
    var i := p.leader.id;
    var m := HeartbeatFor(p.leader, p.follower.id);
    assert NodeOk(nodes.Keys, h, net, i, nodes[i]);
    HeartbeatOk(nodes.Keys, h, net, i, p.leader, p.follower.id);
    CommitBounds(nodes, net, h, i);
    IdleStep(nodes, net, h, i, p.leader, {m});
    assert nodes[i := p.leader] == nodes;
  }

  /** The follower, moved to the leader's term and recognising it. */
  function Listening(p: Pair, draw: nat): RaftState {
    var m := HeartbeatFor(p.leader, p.follower.id);
    Recognise(StepDown(p.follower, m, draw), m, draw)
  }

  lemma ListeningLog(p: Pair, draw: nat)
    requires p.follower.currentTerm <= p.leader.currentTerm
    ensures var f := Listening(p, draw);
            f.id == p.follower.id && f.log == p.follower.log && f.currentTerm == p.leader.currentTerm && f.msgs == p.follower.msgs
  {
    var m := HeartbeatFor(p.leader, p.follower.id);
    StepDownKeeps(p.follower, m, draw);
    RecogniseKeeps(StepDown(p.follower, m, draw), m, draw);
  }

  lemma AnswerOf(p: Pair, d: Draws)
    requires p.follower.msgs == [] && p.follower.currentTerm <= p.leader.currentTerm
    ensures Receives(p, d.follower) == AnswerAppend(Listening(p, d.follower), HeartbeatFor(p.leader, p.follower.id))
    ensures Succeeds(p, d) <==> Consistent(p.follower.log, HeartbeatFor(p.leader, p.follower.id))
    ensures |Receives(p, d.follower).msgs| == 1
    ensures var reply := Receives(p, d.follower).msgs[0];
            && reply.AppendEntriesResp? && reply.from == p.follower.id && reply.to == p.leader.id
            && reply.term == p.leader.currentTerm
  {
    ListeningLog(p, d.follower);
    assert p.follower.(msgs := []) == p.follower;
  }

  /** A failed round lowers nextIndex, keeps it at least one, and changes neither log. */
  lemma FailedRound(nodes: map<Id, RaftState>, net: set<Message>, h: History, p: Pair, d: Draws)
    requires Live(nodes, net, h, p) && !Succeeds(p, d)
    ensures var q := Exchange(p, d);
            && 1 <= Next(q) < Next(p)
            && q.leader.log == p.leader.log && q.follower.log == p.follower.log
            && q.leader.currentTerm == p.leader.currentTerm && q.leader.role == Leader
            && q.follower.currentTerm == p.leader.currentTerm
            && q.leader.id == p.leader.id && q.follower.id == p.follower.id
  {
    var i := p.leader.id;
    assert NodeOk(nodes.Keys, h, net, i, nodes[i]);
    var m := HeartbeatFor(p.leader, p.follower.id);
    AnswerOf(p, d);
    ListeningLog(p, d.follower);
    HintBelow(p.follower.log, m);
    assert 1 <= Next(p) <= |p.leader.log|;
    LeaderBacksOff(p, d);
  }

  lemma LeaderBacksOff(p: Pair, d: Draws)
    requires p.leader.msgs == [] && p.follower.msgs == [] && p.follower.currentTerm <= p.leader.currentTerm
    requires p.leader.role == Leader && !Succeeds(p, d) && Next(p) >= 1
    requires BackoffHint(p.follower.log, HeartbeatFor(p.leader, p.follower.id)) < Next(p) - 1
    ensures var q := Exchange(p, d);
            && 1 <= Next(q) < Next(p)
            && q.leader.log == p.leader.log && q.follower.log == p.follower.log
            && q.leader.currentTerm == p.leader.currentTerm && q.leader.role == Leader
            && q.follower.currentTerm == p.leader.currentTerm
            && q.leader.id == p.leader.id && q.follower.id == p.follower.id
  {
    AnswerOf(p, d);
    ListeningLog(p, d.follower);
    var reply := Receives(p, d.follower).msgs[0];
    assert reply.reject && reply.index == BackoffHint(p.follower.log, HeartbeatFor(p.leader, p.follower.id));
    assert Step(p.leader.(msgs := []), reply, d.leader) == BackOff(p.leader, reply);
  }

  /** What a leader sends reaches the end of its log. */
  lemma AppendReachesEnd(members: set<Id>, h: History, net: set<Message>, i: Id, l: RaftState, j: Id)
    requires LeaderLogsOk(h.elections) && AcksOk(h) && NodeOk(members, h, net, i, l) && l.role == Leader
    requires j in members && j != i
    ensures var m := HeartbeatFor(l, j);
            m.term == l.currentTerm && Carries(h, m) && Led(h, m) == h.elections[l.currentTerm].log == l.log
    ensures LastLogIndex(l.log) == |l.log| - 1
  {
    HeartbeatOk(members, h, net, i, l, j);
    RootedNumbered(h.elections, l.log);
  }

  /** An append the follower accepts leaves it with the leader's whole log. */
  lemma AppendMakesEqual(h: History, log: Log, f: RaftState, m: Message)
    requires LeaderLogsOk(h.elections) && LogOk(h, f)
    requires m.AppendEntries? && Carries(h, m) && f.currentTerm == m.term && Consistent(f.log, m)
    requires Led(h, m) == h.elections[m.term].log == log
    ensures Merge(f.log, m.prevLogIndex + 1, m.entries) == log && |log| > 1
  {
    MergedLog(h, f, m);
    AcceptedIsLed(h, f, m, Merge(f.log, m.prevLogIndex + 1, m.entries));
  }

  /** The follower ends with the leader's log. */
  lemma FollowerAccepts(nodes: map<Id, RaftState>, net: set<Message>, h: History, p: Pair, d: Draws)
    requires Live(nodes, net, h, p) && Succeeds(p, d)
    ensures Receives(p, d.follower).log == p.leader.log && LastLogIndex(p.leader.log) == |p.leader.log| - 1 > 0
  {
    var i, j := p.leader.id, p.follower.id;
    var f, m := Listening(p, d.follower), HeartbeatFor(p.leader, j);
    AnswerOf(p, d);
    ListeningLog(p, d.follower);
    assert NodeOk(nodes.Keys, h, net, i, nodes[i]);
    AppendReachesEnd(nodes.Keys, h, net, i, p.leader, j);
    assert LogOk(h, f) by { assert NodeOk(nodes.Keys, h, net, j, nodes[j]); }
    AppendMakesEqual(h, p.leader.log, f, m);
    AnswerAccepted(f, m);
  }

  /** A successful round leaves the two logs equal. */
  lemma SuccessfulRound(nodes: map<Id, RaftState>, net: set<Message>, h: History, p: Pair, d: Draws)
    requires Live(nodes, net, h, p) && Succeeds(p, d)
    ensures var q := Exchange(p, d);
            && q.follower.log == p.leader.log == q.leader.log
            && Next(q) == |p.leader.log|
            && Get(q.leader.matchIndex, p.follower.id) == LastLogIndex(p.leader.log)
  {
    FollowerAccepts(nodes, net, h, p, d);
    LeaderTakesSuccess(p, d);
  }

  lemma LeaderTakesSuccess(p: Pair, d: Draws)
    requires p.leader.msgs == [] && p.follower.msgs == [] && p.follower.currentTerm <= p.leader.currentTerm
    requires p.leader.role == Leader && Succeeds(p, d)
    requires Receives(p, d.follower).log == p.leader.log && LastLogIndex(p.leader.log) == |p.leader.log| - 1 > 0
    ensures var q := Exchange(p, d);
            && q.follower.log == p.leader.log == q.leader.log
            && Next(q) == |p.leader.log|
            && Get(q.leader.matchIndex, p.follower.id) == LastLogIndex(p.leader.log)
  {
    AnswerOf(p, d);
    var reply := Receives(p, d.follower).msgs[0];
    assert reply.index == LastLogIndex(p.leader.log);
  }

  /** The pair lives on through a failed round. */
  lemma RoundLive(nodes: map<Id, RaftState>, net: set<Message>, h: History, p: Pair, d: Draws)
    returns (nodes': map<Id, RaftState>, net': set<Message>, h': History)
    requires Live(nodes, net, h, p) && !Succeeds(p, d)
    ensures Live(nodes', net', h', Exchange(p, d))
  {
    var i, j := p.leader.id, p.follower.id;
    var m := HeartbeatFor(p.leader, j);
    var q := Exchange(p, d);
    FailedRound(nodes, net, h, p, d);
    AnswerOf(p, d);
    Sends(nodes, net, h, p);
    var f := Receives(p, d.follower);
    assert p.follower.(msgs := []) == p.follower && p.leader.(msgs := []) == p.leader;
    var h1 := StepRegion(nodes, net + {m}, h, j, m, d.follower);
    var net1 := net + {m} + Elements(f.msgs);
    var nodes1 := nodes[j := f];
    CommitBounds(nodes1, net1, h1, j);
    Settle(nodes1, net1, h1, j, q.follower);
    Overwrite(nodes, j, f, q.follower);
    var nodes2 := nodes[j := q.follower];
    var reply := f.msgs[0];
    assert reply in Elements(f.msgs);
    h' := StepRegion(nodes2, net1, h1, i, reply, d.leader);
    var l := Step(p.leader, reply, d.leader);
    net' := net1 + Elements(l.msgs);
    CommitBounds(nodes2[i := l], net', h', i);
    Settle(nodes2[i := l], net', h', i, q.leader);
    Overwrite(nodes2, i, l, q.leader);
    nodes' := nodes2[i := q.leader];
  }

  /** Exactly k failed rounds come before a successful one, after which the logs are equal. */
  ghost predicate SucceedsAfter(talk: seq<Pair>, draws: seq<Draws>, k: nat) {
    && k < |draws| < |talk|
    && First(SucceedsFunction(), talk, draws, k)
    && talk[k + 1].follower.log == talk[0].leader.log == talk[k + 1].leader.log
  }

  /** Some cluster that satisfies the invariant holds the pair. */
  ghost predicate Alive(p: Pair) {
    exists nodes, net, h :: Live(nodes, net, h, p)
  }

  lemma AliveFails(p: Pair, d: Draws)
    requires Alive(p) && !Succeeds(p, d)
    ensures var q := Exchange(p, d);
            Alive(q) && 1 <= Next(q) < Next(p) && q.leader.log == p.leader.log
  {
    var nodes, net, h :| Live(nodes, net, h, p);
    FailedRound(nodes, net, h, p, d);
    var nodes', net', h' := RoundLive(nodes, net, h, p, d);
  }

  lemma AliveSucceeds(p: Pair, d: Draws)
    requires Alive(p) && Succeeds(p, d)
    ensures Exchange(p, d).follower.log == p.leader.log == Exchange(p, d).leader.log
  {
    var nodes, net, h :| Live(nodes, net, h, p);
    SuccessfulRound(nodes, net, h, p, d);
  }

  lemma AliveNext(p: Pair)
    requires Alive(p)
    ensures Next(p) >= 1
  {
    var nodes, net, h :| Live(nodes, net, h, p);
    assert NodeOk(nodes.Keys, h, net, p.leader.id, nodes[p.leader.id]);
  }

  /** Live pairs stay live and get closer as long as rounds fail, and a success makes the logs equal. */
  lemma ExchangeWorks(p: Pair, d: Draws)
    requires Alive(p)
    ensures var q := Exchange(p, d);
            && q.leader.log == p.leader.log
            && if Succeeds(p, d) then q.follower.log == p.leader.log else Alive(q) && Next(q) < Next(p)
  {
    if Succeeds(p, d) {
      AliveSucceeds(p, d);
    } else {
      AliveFails(p, d);
    }
  }

  /**
   In any state of a run without restarts, a leader and a peer whose term is not ahead that exchange appends and
   replies undisturbed fail fewer times than the leader's nextIndex for the peer, then succeed, and end with
   equal logs.
   */
  lemma CatchUpConverges(decode: Decoder, run: seq<State>, k: nat, i: Id, j: Id, talk: seq<Pair>, draws: seq<Draws>) returns (n: nat)
    requires Run(decode, run) && At(run, k, i) && At(run, k, j) && i != j
    requires RaftOf(run, k, i).role == Leader && RaftOf(run, k, j).currentTerm <= RaftOf(run, k, i).currentTerm
    requires Talk(talk, draws) && talk[0] == Pair(RaftOf(run, k, i), RaftOf(run, k, j))
    requires |draws| >= Get(RaftOf(run, k, i).nextIndex, j)
    ensures n < Get(RaftOf(run, k, i).nextIndex, j) && SucceedsAfter(talk, draws, n)
  {
    PairAlive(decode, run, k, i, j);
    n := TalkConverges(talk, draws);
  }

  lemma TalkConverges(talk: seq<Pair>, draws: seq<Draws>) returns (n: nat)
    requires Talk(talk, draws) && Alive(talk[0]) && Next(talk[0]) <= |draws|
    ensures n < Next(talk[0]) && SucceedsAfter(talk, draws, n)
  {
    var go, ok := ExchangeFunction(), SucceedsFunction();
    var log := talk[0].leader.log;
    var alive, over := (p: Pair) => Alive(p) && p.leader.log == log, (p: Pair) => p.follower.log == log == p.leader.log;
    var rank := (p: Pair) => Next(p);
    assert Approaches(go, ok, alive, over, rank) by {
      forall p | alive(p) ensures rank(p) > 0 { AliveNext(p); }
      forall p, d | alive(p) ensures if ok(p, d) then over(go(p, d)) else alive(go(p, d)) && rank(go(p, d)) < rank(p) {
        ExchangeWorks(p, d);
      }
    }
    n := Reach(go, ok, alive, over, rank, talk, draws, 0);
  }

  lemma PairAlive(decode: Decoder, run: seq<State>, k: nat, i: Id, j: Id)
    requires Run(decode, run) && At(run, k, i) && At(run, k, j) && i != j
    requires RaftOf(run, k, i).role == Leader && RaftOf(run, k, j).currentTerm <= RaftOf(run, k, i).currentTerm
    ensures Alive(Pair(RaftOf(run, k, i), RaftOf(run, k, j))) && RaftOf(run, k, j).id == j
  {
    var hs := RunGood(decode, run);
    var p := Pair(RaftOf(run, k, i), RaftOf(run, k, j));
    assert GoodAt(decode, run, hs, k);
    assert NodeSettled(decode, run[k].nodes[i]) && NodeSettled(decode, run[k].nodes[j]);
    NodeAt(decode, run, hs, k, i);
    NodeAt(decode, run, hs, k, j);
    assert Live(Rafts(run[k]), run[k].net, hs[k], p);
  }
}
