/** With clocks in step and messages delivered at once, a leader that has been heard stays leader for ever. */
module StableLeader {
  import opened Types
  import opened RaftSpec
  import opened Frames

  datatype Cohort = Cohort(leader: RaftState, followers: map<Id, RaftState>)

  /** All clocks tick once, or a client proposes to the leader. */
  datatype Event = Ticks | Proposal(data: Bytes)

  /** What happens in a round, and what each node would draw in it. */
  datatype Beat = Beat(event: Event, draws: Id -> nat)

  /** The first message addressed to p. */
  function FirstTo(msgs: seq<Message>, p: Id): Option<Message> {
    if msgs == [] then None else if msgs[0].to == p then Some(msgs[0]) else FirstTo(msgs[1..], p)
  }

  /** A follower after the messages the leader has just sent. */
  function Hears(f: RaftState, p: Id, msgs: seq<Message>, draw: nat): RaftState {
    match FirstTo(msgs, p)
    case None => f.(msgs := [])
    case Some(m) => Step(f.(msgs := []), m, draw)
  }

  /** The leader after the replies of its peers, in their order. */
  function Collects(l: RaftState, peers: seq<Id>, answers: map<Id, RaftState>, draw: nat): RaftState {
    if peers == [] then l
    else
      var l' := Collects(l, peers[..|peers| - 1], answers, draw);
      var p := peers[|peers| - 1];
      if p in answers && answers[p].msgs != [] then Step(l', answers[p].msgs[0], draw) else l'
  }

  function LeaderMove(l: RaftState, e: Event, draw: nat): RaftState {
    if e.Ticks? then Tick(l, draw) else Propose(l, e.data).0
  }

  /** The followers once the leader's messages have arrived. */
  function Heard(followers: map<Id, RaftState>, msgs: seq<Message>, draws: Id -> nat): map<Id, RaftState> {
    map p | p in followers :: Hears(followers[p], p, msgs, draws(p))
  }

  /** The rest of a round, once the leader has moved. */
  function Respond(l: RaftState, followers: map<Id, RaftState>, b: Beat): Cohort {
    var heard := Heard(followers, l.msgs, b.draws);
    Cohort(Collects(l, l.peers, heard, b.draws(l.id)),
           map p | p in heard :: if b.event.Ticks? then Tick(heard[p], b.draws(p)) else heard[p])
  }

  function Round(c: Cohort, b: Beat): Cohort {
    Respond(LeaderMove(c.leader.(msgs := []), b.event, b.draws(c.leader.id)), c.followers, b)
  }

  function Fold<S, E>(step: (S, E) -> S, x: S, events: seq<E>): S {
    if events == [] then x else step(Fold(step, x, events[..|events| - 1]), events[|events| - 1])
  }

  function RoundStep(): (Cohort, Beat) -> Cohort {
    (c, b) => Round(c, b)
  }

  function Rounds(c: Cohort, beats: seq<Beat>): Cohort {
    Fold(RoundStep(), c, beats)
  }

  /** A property that may depend on how many of the events have happened. */
  lemma {:induction false} FoldKeeps<S(!new), E>(step: (S, E) -> S, inv: (S, nat) -> bool, x: S, events: seq<E>)
    requires inv(x, 0) && forall y, k: nat :: k < |events| && inv(y, k) ==> inv(step(y, events[k]), k + 1)
    ensures inv(Fold(step, x, events), |events|)
  {
    if events != [] {
      FoldKeeps(step, inv, x, events[..|events| - 1]);
    }
  }

  lemma FoldOnce<S, E>(step: (S, E) -> S, x: S, e: E)
    ensures Fold(step, x, [e]) == step(x, e)
  {
    assert [e][..0] == [];
  }

  // ---- What stays true

  /** Ticks between two heartbeats. */
  function Interval(l: RaftState): nat {
    if l.heartbeatTimeout == 0 then 1 else l.heartbeatTimeout
  }

  predicate LeaderSteady(l: RaftState, term: nat) {
    && l.role == Leader && l.currentTerm == term && l.id != NONE
    && l.heartbeatElapsed < Interval(l)
  }

  /** The follower's clock is at most one tick ahead of the leader's, and far from its timeout. */
  predicate FollowerSteady(f: RaftState, term: nat, elapsed: nat, interval: nat) {
    && f.role == Follower && f.currentTerm == term
    && f.electionElapsed <= elapsed
    && interval < f.electionTimeout
  }

  predicate Steady(c: Cohort, term: nat) {
    && LeaderSteady(c.leader, term)
    && Elements(c.leader.peers) == c.followers.Keys
    && forall p :: p in c.followers ==>
         FollowerSteady(c.followers[p], term, c.leader.heartbeatElapsed + 1, Interval(c.leader))
  }

  /** Appends from the leader of the term. */
  predicate FromLeader(msgs: seq<Message>, term: nat) {
    forall m :: m in msgs ==> m.AppendEntries? && m.term == term
  }

  lemma {:induction false} FirstToFinds(msgs: seq<Message>, p: Id)
    ensures match FirstTo(msgs, p)
            case None => forall m :: m in msgs ==> m.to != p
            case Some(m) => m in msgs && m.to == p
  {
    if msgs != [] && msgs[0].to != p {
      FirstToFinds(msgs[1..], p);
      assert msgs == [msgs[0]] + msgs[1..];
    }
  }

  lemma BroadcastIsFromLeader(l: RaftState)
    requires l.msgs == []
    ensures FromLeader(BroadcastHeartbeat(l).msgs, l.currentTerm)
  {
  }

  lemma BroadcastAddresses(l: RaftState, p: Id)
    requires l.msgs == [] && p in l.peers
    ensures FirstTo(BroadcastHeartbeat(l).msgs, p).Some?
  {
    var msgs := BroadcastHeartbeat(l).msgs;
    var k :| 0 <= k < |l.peers| && l.peers[k] == p;
    assert msgs[k] == HeartbeatFor(l, p) && msgs[k] in msgs;
    FirstToFinds(msgs, p);
  }

  lemma FollowerHears(f: RaftState, m: Message, draw: nat)
    requires f.role == Follower && m.AppendEntries? && m.term == f.currentTerm && f.msgs == []
    ensures var g := Step(f, m, draw);
            && g.role == Follower && g.currentTerm == f.currentTerm && g.electionElapsed == 0
            && g.electionTimeout == f.electionTimeout && g.baseElectionTimeout == f.baseElectionTimeout
            && (forall r :: r in g.msgs ==> r.AppendEntriesResp? && r.term == f.currentTerm)
  {
    var s := Recognise(f, m, draw);
    assert s.role == Follower && s.electionElapsed == 0;
    assert Step(f, m, draw) == AnswerAppend(s, m);
  }

  lemma HearsSteady(f: RaftState, p: Id, msgs: seq<Message>, draw: nat, term: nat, elapsed: nat, interval: nat)
    requires FollowerSteady(f, term, elapsed, interval) && FromLeader(msgs, term)
    ensures var g := Hears(f, p, msgs, draw);
            && FollowerSteady(g, term, if FirstTo(msgs, p).Some? then 0 else elapsed, interval)
            && (forall r :: r in g.msgs ==> r.AppendEntriesResp? && r.term == term)
  {
    FirstToFinds(msgs, p);
    if FirstTo(msgs, p).Some? {
      FollowerHears(f.(msgs := []), FirstTo(msgs, p).value, draw);
    }
  }

  /** Replies of its own term never unseat a leader or touch its heartbeat clock. */
  lemma ReplyKeepsLeader(l: RaftState, r: Message, draw: nat)
    requires r.AppendEntriesResp? && r.term == l.currentTerm
    ensures var a := Step(l, r, draw);
            && a.role == l.role && a.currentTerm == l.currentTerm && a.id == l.id && a.peers == l.peers
            && a.heartbeatElapsed == l.heartbeatElapsed && a.heartbeatTimeout == l.heartbeatTimeout
  {
    AppendRespKeeps(l, r);
  }

  lemma {:induction false} CollectsKeepsLeader(l: RaftState, peers: seq<Id>, answers: map<Id, RaftState>, draw: nat)
    requires forall p, r :: p in answers && r in answers[p].msgs ==> r.AppendEntriesResp? && r.term == l.currentTerm
    ensures var a := Collects(l, peers, answers, draw);
            && a.role == l.role && a.currentTerm == l.currentTerm && a.id == l.id && a.peers == l.peers
            && a.heartbeatElapsed == l.heartbeatElapsed && a.heartbeatTimeout == l.heartbeatTimeout
  {
    if peers != [] {
      var init, p := peers[..|peers| - 1], peers[|peers| - 1];
      CollectsKeepsLeader(l, init, answers, draw);
      if p in answers && answers[p].msgs != [] {
        assert answers[p].msgs[0] in answers[p].msgs;
        ReplyKeepsLeader(Collects(l, init, answers, draw), answers[p].msgs[0], draw);
      }
    }
  }

  /** The leader's own part of a round: either it is silent and its clock advances, or every peer is addressed. */
  lemma LeaderMoves(l: RaftState, e: Event, draw: nat, term: nat)
    requires LeaderSteady(l, term) && l.msgs == []
    ensures var l1 := LeaderMove(l, e, draw);
            && LeaderSteady(l1, term) && l1.peers == l.peers && Interval(l1) == Interval(l)
            && FromLeader(l1.msgs, term)
            && (e.Proposal? ==> l1.heartbeatElapsed == l.heartbeatElapsed)
            && ((forall p :: p in l.peers ==> FirstTo(l1.msgs, p).Some?)
                || (e.Ticks? && l1.heartbeatElapsed == l.heartbeatElapsed + 1))
  {
    if e.Proposal? {
      var entry := Entry(LastLogIndex(l.log) + 1, l.currentTerm, Command, e.data);
      var b := l.(log := l.log + [entry], matchIndex := l.matchIndex[l.id := entry.index]);
      BroadcastIsFromLeader(b);
      forall p | p in l.peers ensures FirstTo(BroadcastHeartbeat(b).msgs, p).Some? {
        BroadcastAddresses(b, p);
      }
    } else if l.heartbeatElapsed + 1 >= l.heartbeatTimeout {
      var b := l.(heartbeatElapsed := 0, heartbeatAcked := 1);
      BroadcastIsFromLeader(b);
      forall p | p in l.peers ensures FirstTo(BroadcastHeartbeat(b).msgs, p).Some? {
        BroadcastAddresses(b, p);
      }
    }
  }

  lemma FollowerTicks(f: RaftState, draw: nat, term: nat, elapsed: nat, interval: nat)
    requires FollowerSteady(f, term, elapsed, interval) && elapsed + 1 <= interval
    ensures FollowerSteady(Tick(f, draw), term, elapsed + 1, interval)
  {
  }

  lemma HeardSteady(followers: map<Id, RaftState>, msgs: seq<Message>, draws: Id -> nat, term: nat, elapsed: nat, interval: nat)
    requires FromLeader(msgs, term)
    requires forall p :: p in followers ==> FollowerSteady(followers[p], term, elapsed, interval)
    ensures var heard := Heard(followers, msgs, draws);
            && (forall p :: p in heard ==> FollowerSteady(heard[p], term, if FirstTo(msgs, p).Some? then 0 else elapsed, interval))
            && (forall p, r :: p in heard && r in heard[p].msgs ==> r.AppendEntriesResp? && r.term == term)
  {
    var heard := Heard(followers, msgs, draws);
    forall p | p in heard
      ensures FollowerSteady(heard[p], term, if FirstTo(msgs, p).Some? then 0 else elapsed, interval)
      ensures forall r :: r in heard[p].msgs ==> r.AppendEntriesResp? && r.term == term
    {
      HearsSteady(followers[p], p, msgs, draws(p), term, elapsed, interval);
    }
  }

  /** The followers at the end of a round. */
  lemma FollowersSteady(l: RaftState, heard: map<Id, RaftState>, b: Beat, term: nat, elapsed: nat, p: Id)
    requires p in heard && l.heartbeatElapsed < Interval(l)
    requires FollowerSteady(heard[p], term, elapsed, Interval(l)) && elapsed <= l.heartbeatElapsed + (if b.event.Ticks? then 0 else 1)
    ensures var f := if b.event.Ticks? then Tick(heard[p], b.draws(p)) else heard[p];
            FollowerSteady(f, term, l.heartbeatElapsed + 1, Interval(l))
  {
    if b.event.Ticks? {
      FollowerTicks(heard[p], b.draws(p), term, l.heartbeatElapsed, Interval(l));
    }
  }

  lemma RespondSteady(l: RaftState, followers: map<Id, RaftState>, b: Beat, term: nat, elapsed: nat)
    requires LeaderSteady(l, term) && FromLeader(l.msgs, term) && Elements(l.peers) == followers.Keys
    requires forall p :: p in followers ==> FollowerSteady(followers[p], term, elapsed, Interval(l))
    requires (forall p :: p in l.peers ==> FirstTo(l.msgs, p).Some?) || (b.event.Ticks? && elapsed == l.heartbeatElapsed)
    ensures Steady(Respond(l, followers, b), term)
  {
    var heard := Heard(followers, l.msgs, b.draws);
    HeardSteady(followers, l.msgs, b.draws, term, elapsed, Interval(l));
    CollectsKeepsLeader(l, l.peers, heard, b.draws(l.id));
    var d := Respond(l, followers, b);
    assert d.followers.Keys == followers.Keys;
    forall p | p in d.followers ensures FollowerSteady(d.followers[p], term, l.heartbeatElapsed + 1, Interval(l)) {
      assert p in Elements(l.peers);
      FollowersSteady(l, heard, b, term, if FirstTo(l.msgs, p).Some? then 0 else elapsed, p);
    }
  }

  lemma RoundSteady(c: Cohort, b: Beat, term: nat)
    requires Steady(c, term)
    ensures Steady(Round(c, b), term)
  {
    var l, draw := c.leader.(msgs := []), b.draws(c.leader.id);
    LeaderMoves(l, b.event, draw, term);
    RespondSteady(LeaderMove(l, b.event, draw), c.followers, b, term, c.leader.heartbeatElapsed + 1);
  }

  /**
   However many rounds pass, whatever is proposed, the leader leads the same term and no follower has left it:
   no follower's clock ever reaches its timeout.
   */
  lemma LeaderIsStable(c: Cohort, beats: seq<Beat>, term: nat)
    requires Steady(c, term)
    ensures Steady(Rounds(c, beats), term)
    ensures var d := Rounds(c, beats);
            && d.leader.role == Leader && d.leader.currentTerm == term
            && forall p :: p in d.followers ==>
                 && d.followers[p].role == Follower && d.followers[p].currentTerm == term
                 && d.followers[p].electionElapsed < d.followers[p].electionTimeout
  {
    var step, inv := RoundStep(), (d: Cohort, k: nat) => Steady(d, term);
    forall d: Cohort, k: nat | k < |beats| && inv(d, k) ensures inv(step(d, beats[k]), k + 1) {
      RoundSteady(d, beats[k], term);
    }
    FoldKeeps(step, inv, c, beats);
  }

  // ---- Timeouts that are too short

  predicate TicksOnly(beats: seq<Beat>) {
    forall k :: 0 <= k < |beats| ==> beats[k].event.Ticks?
  }

  lemma {:induction false} CollectsNothing(l: RaftState, peers: seq<Id>, answers: map<Id, RaftState>, draw: nat)
    requires forall p :: p in answers ==> answers[p].msgs == []
    ensures Collects(l, peers, answers, draw) == l
  {
    if peers != [] {
      CollectsNothing(l, peers[..|peers| - 1], answers, draw);
    }
  }

  lemma SilentRound(c: Cohort, b: Beat, p: Id)
    requires c.leader.role == Leader && c.leader.heartbeatElapsed + 1 < c.leader.heartbeatTimeout && p in c.followers
    requires b.event.Ticks?
    ensures var d := Round(c, b);
            && d.leader == c.leader.(msgs := [], heartbeatElapsed := c.leader.heartbeatElapsed + 1)
            && p in d.followers && d.followers[p] == Tick(c.followers[p].(msgs := []), b.draws(p))
  {
    var l := LeaderMove(c.leader.(msgs := []), Ticks, b.draws(c.leader.id));
    assert l.msgs == [];
    CollectsNothing(l, l.peers, Heard(c.followers, l.msgs, b.draws), b.draws(l.id));
  }

  /** The clocks of the leader and of follower p, who are in the same term. */
  ghost predicate Clocks(c: Cohort, p: Id, term: nat, beat: nat, elapsed: nat, interval: nat, timeout: nat) {
    && c.leader.role == Leader && c.leader.currentTerm == term
    && c.leader.heartbeatElapsed == beat && c.leader.heartbeatTimeout == interval
    && p in c.followers && FollowerClock(c.followers[p], term, elapsed, timeout)
  }

  predicate FollowerClock(f: RaftState, term: nat, elapsed: nat, timeout: nat) {
    f.role == Follower && f.currentTerm == term && f.electionElapsed == elapsed && f.electionTimeout == timeout
  }

  lemma ClockTicks(f: RaftState, draw: nat, term: nat, elapsed: nat, timeout: nat)
    requires FollowerClock(f, term, elapsed, timeout)
    ensures elapsed + 1 < timeout ==> FollowerClock(Tick(f, draw), term, elapsed + 1, timeout)
    ensures elapsed + 1 >= timeout ==> Tick(f, draw).currentTerm == term + 1
  {
  }

  lemma SilentClocks(c: Cohort, b: Beat, p: Id, term: nat, beat: nat, elapsed: nat, interval: nat, timeout: nat)
    requires Clocks(c, p, term, beat, elapsed, interval, timeout) && beat + 1 < interval && b.event.Ticks?
    ensures elapsed + 1 < timeout ==> Clocks(Round(c, b), p, term, beat + 1, elapsed + 1, interval, timeout)
    ensures elapsed + 1 >= timeout ==> Left(Round(c, b), p, term)
  {
    SilentRound(c, b, p);
    ClockTicks(c.followers[p].(msgs := []), b.draws(p), term, elapsed, timeout);
  }

  /** Follower p has started an election. */
  ghost predicate Left(c: Cohort, p: Id, term: nat) {
    p in c.followers && c.followers[p].currentTerm == term + 1
  }

  /** Both clocks run undisturbed as long as neither is due; the follower's is due first. */
  ghost predicate Drifts(c: Cohort, p: Id, term: nat, k: nat, interval: nat, timeout: nat) {
    if k + 1 < timeout then Clocks(c, p, term, k, k + 1, interval, timeout) else Left(c, p, term)
  }

  lemma SilenceUnseats(c: Cohort, beats: seq<Beat>, p: Id, term: nat, interval: nat, timeout: nat)
    requires Clocks(c, p, term, 0, 1, interval, timeout) && 2 <= timeout <= interval
    requires TicksOnly(beats) && |beats| == timeout - 1
    ensures Left(Rounds(c, beats), p, term)
  {
    var step, inv := RoundStep(), (d: Cohort, k: nat) => Drifts(d, p, term, k, interval, timeout);
    forall d: Cohort, k: nat | k < |beats| && inv(d, k) ensures inv(step(d, beats[k]), k + 1) {
      SilentClocks(d, beats[k], p, term, k, k + 1, interval, timeout);
    }
    FoldKeeps(step, inv, c, beats);
  }

  lemma HearsKeepsClock(f: RaftState, p: Id, msgs: seq<Message>, draw: nat, term: nat, elapsed: nat, timeout: nat)
    requires FollowerClock(f, term, elapsed, timeout) && FromLeader(msgs, term)
    ensures var e := if FirstTo(msgs, p).Some? then 0 else elapsed;
            FollowerClock(Hears(f, p, msgs, draw), term, e, timeout)
  {
    FirstToFinds(msgs, p);
    if FirstTo(msgs, p).Some? {
      FollowerHears(f.(msgs := []), FirstTo(msgs, p).value, draw);
    }
  }

  lemma LeaderTickSpeaks(l: RaftState, draw: nat)
    requires l.role == Leader && l.msgs == []
    ensures FromLeader(Tick(l, draw).msgs, l.currentTerm)
  {
    BroadcastIsFromLeader(l.(heartbeatElapsed := 0, heartbeatAcked := 1));
  }

  /** A follower whose timeout is a single tick leaves at the next one, whatever it hears before it. */
  lemma OneTickIsTooShort(c: Cohort, b: Beat, p: Id, term: nat, beat: nat, elapsed: nat, interval: nat, timeout: nat)
    requires Clocks(c, p, term, beat, elapsed, interval, timeout) && timeout <= 1 && b.event.Ticks?
    ensures Left(Round(c, b), p, term)
  {
    var l, draw := c.leader.(msgs := []), b.draws(c.leader.id);
    LeaderTickSpeaks(l, draw);
    var msgs := Tick(l, draw).msgs;
    HearsKeepsClock(c.followers[p], p, msgs, b.draws(p), term, elapsed, timeout);
    var e := if FirstTo(msgs, p).Some? then 0 else elapsed;
    ClockTicks(Hears(c.followers[p], p, msgs, b.draws(p)), b.draws(p), term, e, timeout);
  }

  /**
   The bound is exact: a follower whose timeout does not exceed the interval between heartbeats, and whose clock
   has ticked once since the last one, starts an election of its own before the next.
   */
  lemma TimeoutTooShort(c: Cohort, beats: seq<Beat>, p: Id, term: nat, interval: nat, timeout: nat) returns (n: nat)
    requires Clocks(c, p, term, 0, 1, interval, timeout) && timeout <= Interval(c.leader)
    requires TicksOnly(beats) && |beats| >= Interval(c.leader)
    ensures n <= Interval(c.leader) && Left(Rounds(c, beats[..n]), p, term)
  {
    if timeout <= 1 {
      n := 1;
      OneTickIsTooShort(c, beats[0], p, term, 0, 1, interval, timeout);
      assert beats[..1] == [beats[0]];
      FoldOnce(RoundStep(), c, beats[0]);
    } else {
      n := timeout - 1;
      SilenceUnseats(c, beats[..n], p, term, interval, timeout);
    }
  }
}
