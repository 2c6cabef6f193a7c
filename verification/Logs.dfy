/**
 Logs in runs where nodes may restart. A restart empties a log, but a log that was led stays as it was led: every
 entry is in its place together with all that its leader had before it, and no term has two leaders.
 */
module Logs {
  import opened Types
  import opened RaftSpec
  import opened Kv
  import opened NodeSpec
  import opened Cluster
  import opened History
  import opened Completeness
  import opened Extension
  import opened ElectionSteps
  import opened ReplicationSteps
  import opened Invariant
  import opened Electorate
  import opened LogMoves
  import opened Elections
  import opened ElectionMoves
  import opened Granting
  import opened ElectionRuns
  import opened Runs

  type Leads = map<nat, Election>

  /** A history with nothing but the elections. */
  ghost function Past(es: Leads): History {
    History(es, map[], map[])
  }

  ghost predicate WriterOk(es: Leads, r: RaftState) {
    && LogOk(Past(es), r)
    && (r.role == Candidate ==> forall k :: 0 <= k < |r.log| ==> r.log[k].term < r.currentTerm)
    && (r.role == Leader ==>
          && r.currentTerm in es && es[r.currentTerm].log == r.log
          && forall p :: p in r.peers ==> 1 <= Get(r.nextIndex, p) <= |r.log|)
  }

  ghost predicate PostOk(es: Leads, m: Message) {
    match m
    case AppendEntries(_, _, _, _, _, _, _) => Carries(Past(es), m)
    case AppendEntriesResp(_, _, term, reject, index) =>
      !reject || index > 0 ==> term in es && index + (if reject then 1 else 0) < |es[term].log|
    case RequestVote(_, _, _, _, _, _) => true
    case RequestVoteResp(_, _, _, _, _) => true
  }

  /** Every term that was won has a log, and every log and every message goes back to such logs. */
  ghost predicate Written(s: State, p: Poll, es: Leads) {
    && LeaderLogsOk(es) && es.Keys == p.wins.Keys
    && (forall i {:trigger WriterOk(es, s.nodes[i].raft)} :: i in s.nodes ==> WriterOk(es, s.nodes[i].raft))
    && (forall m {:trigger PostOk(es, m)} :: m in s.net ==> PostOk(es, m))
  }

  // ---- Leading

  /** The leads once the one of a term has grown by an entry. */
  ghost function LedOn(es: Leads, term: nat, led: Election, e: Entry): Leads {
    es[term := led.(log := led.log + [e])]
  }

  lemma LedOnOk(es: Leads, term: nat, led: Election, e: Entry)
    requires LeaderLogsOk(es) && Rooted(es, led.log) && 0 < |led.base| && led.base <= led.log
    requires forall k :: 0 <= k < |led.base| ==> led.log[k].term < term
    requires forall k :: |led.base| <= k < |led.log| ==> led.log[k].term == term
    requires e.term == term && e.index == |led.log| && (term in es ==> es[term] == led)
    ensures var es' := LedOn(es, term, led, e);
            ElectionsLe(es, es') && LeaderLogsOk(es') && Rooted(es', led.log + [e])
  {
    var es', log, log' := LedOn(es, term, led, e), led.log, led.log + [e];
    RootedNumbered(es, log);
    RootedAscending(es, log);
    RootedGrows(es, es', log);
    forall k | 1 <= k < |log'| ensures RootedAt(es', log', k) {
      if k < |log| {
        assert RootedAt(es', log, k);
        assert log'[..k + 1] == log[..k + 1];
      } else {
        assert log'[..k + 1] == log';
      }
    }
    assert LeaderLogOk(es', term);
    LeaderLogsGrow(es, es', term);
  }

  /** The leads after node i has moved from r to a. */
  ghost function NextLeads(es: Leads, i: Id, r: RaftState, a: RaftState): Leads {
    if Wins(r, a) then LedOn(es, a.currentTerm, Election(i, map[], r.log, r.log), NextEntry(r.log, a.currentTerm, []))
    else if StillLeads(r, a) && a.currentTerm in es then es[a.currentTerm := es[a.currentTerm].(log := a.log)]
    else es
  }

  lemma WinLeads(es: Leads, i: Id, r: RaftState, a: RaftState, input: Input)
    requires LeaderLogsOk(es) && WriterOk(es, r) && Writes(r, a, input) && Wins(r, a) && a.currentTerm !in es
    requires r.currentTerm <= a.currentTerm
    ensures var es' := NextLeads(es, i, r, a);
            ElectionsLe(es, es') && LeaderLogsOk(es') && Rooted(es', a.log)
  {
    RootedNumbered(es, r.log);
    LedOnOk(es, a.currentTerm, Election(i, map[], r.log, r.log), NextEntry(r.log, a.currentTerm, []));
  }

  lemma LeaderLeads(es: Leads, i: Id, r: RaftState, a: RaftState, input: Input)
    requires LeaderLogsOk(es) && WriterOk(es, r) && Writes(r, a, input) && StillLeads(r, a)
    ensures var es' := NextLeads(es, i, r, a);
            ElectionsLe(es, es') && LeaderLogsOk(es') && Rooted(es', a.log)
  {
    var t := a.currentTerm;
    assert LeaderLogOk(es, t);
    if a.log == r.log {
      assert NextLeads(es, i, r, a) == es;
    } else {
      RootedNumbered(es, r.log);
      LedOnOk(es, t, es[t], NextEntry(r.log, t, input.data));
    }
  }

  /** A call that does not lead leaves the leads as they are. */
  lemma NextLeadsOk(es: Leads, i: Id, r: RaftState, a: RaftState, input: Input)
    requires LeaderLogsOk(es) && WriterOk(es, r) && Writes(r, a, input) && r.currentTerm <= a.currentTerm
    requires Wins(r, a) ==> a.currentTerm !in es
    ensures var es' := NextLeads(es, i, r, a);
            ElectionsLe(es, es') && LeaderLogsOk(es') && (a.role == Leader ==> Rooted(es', a.log))
  {
    if Wins(r, a) {
      WinLeads(es, i, r, a, input);
    } else if StillLeads(r, a) {
      LeaderLeads(es, i, r, a, input);
    }
  }

  // ---- The node that moves

  /** A follower that merges an append ends with a piece of the leader's log. */
  lemma MergeLed(es: Leads, r: RaftState, a: RaftState, input: Input)
    requires LeaderLogsOk(es) && WriterOk(es, r) && Merges(r, a, input) && r.currentTerm <= a.currentTerm
    requires PostOk(es, input.m)
    ensures input.m.term in es && a.log <= es[input.m.term].log && |a.log| > 1 && LastLogIndex(a.log) == |a.log| - 1
    ensures LogOk(Past(es), a)
  {
    var m, f := input.m, r.(currentTerm := a.currentTerm);
    MergedLog(Past(es), f, m);
    AcceptedIsLed(Past(es), f, m, a.log);
    AcceptedLogOk(Past(es), Past(es), f, m.term, a.log);
  }

  lemma FollowerMoves(es: Leads, r: RaftState, a: RaftState, input: Input)
    requires LeaderLogsOk(es) && WriterOk(es, r) && Writes(r, a, input) && r.currentTerm <= a.currentTerm
    requires input.Receive? ==> PostOk(es, input.m)
    requires a.role != Leader
    ensures WriterOk(es, a)
  {
    if a.role == Follower && Merges(r, a, input) {
      MergeLed(es, r, a, input);
    }
  }

  lemma LeaderMoves(es: Leads, i: Id, r: RaftState, a: RaftState, input: Input)
    requires LeaderLogsOk(es) && WriterOk(es, r) && Writes(r, a, input) && r.currentTerm <= a.currentTerm && a.peers == r.peers
    requires input.Receive? ==> PostOk(es, input.m)
    requires a.role == Leader && Rooted(NextLeads(es, i, r, a), a.log) && (Wins(r, a) ==> a.currentTerm !in es)
    ensures WriterOk(NextLeads(es, i, r, a), a)
  {
    RootedNumbered(es, r.log);
    forall p | p in a.peers ensures 1 <= Get(a.nextIndex, p) <= |a.log| {
      if StillLeads(r, a) {
        assert NextMoves(r, a, input, p);
      }
    }
  }

  // ---- What is sent

  lemma AppendCarries(es: Leads, a: RaftState, m: Message)
    requires LeaderLogsOk(es) && WriterOk(es, a) && a.role == Leader && m.to in a.peers && m == HeartbeatFor(a, m.to)
    ensures Carries(Past(es), m)
  {
    assert LeaderLogOk(es, a.currentTerm);
    RootedNumbered(es, a.log);
    var next := Get(a.nextIndex, m.to);
    assert m.entries == a.log[next..];
  }

  lemma SaidPostOk(es: Leads, es': Leads, r: RaftState, a: RaftState, input: Input, m: Message)
    requires LeaderLogsOk(es) && LeaderLogsOk(es') && ElectionsLe(es, es') && WriterOk(es, r) && WriterOk(es', a)
    requires r.currentTerm <= a.currentTerm && (input.Receive? ==> PostOk(es, input.m)) && LogSays(r, a, input, m)
    ensures PostOk(es', m)
  {
    if m.AppendEntries? {
      AppendCarries(es', a, m);
    } else if m.AppendEntriesResp? && !m.reject {
      MergeLed(es, r, a, input);
    } else if m.AppendEntriesResp? && m.index > 0 {
      HintBelow(r.log, input.m);
    }
  }

  lemma PostGrows(es: Leads, es': Leads, m: Message)
    requires ElectionsLe(es, es') && PostOk(es, m)
    ensures PostOk(es', m)
  {
  }

  // ---- Steps

  /** What a node's log and its place in the term depend on. */
  ghost predicate SameJournal(a: RaftState, b: RaftState) {
    && b.log == a.log && b.currentTerm == a.currentTerm && b.role == a.role
    && b.nextIndex == a.nextIndex && b.peers == a.peers
  }

  /** A node that does not move keeps its place: the lead that changes is not its own. */
  lemma WriterWaits(es: Leads, i: Id, r: RaftState, a: RaftState, n: RaftState)
    requires WriterOk(es, n) && ElectionsLe(es, NextLeads(es, i, r, a))
    requires n.role == Leader ==> n.currentTerm != a.currentTerm || a.role != Leader
    ensures WriterOk(NextLeads(es, i, r, a), n)
  {
    RootedGrows(es, NextLeads(es, i, r, a), n.log);
  }

  /** No other node leads the term of a leader. */
  lemma NoRival(s: State, p: Poll, i: Id, j: Id, a: RaftState)
    requires Fair(s, p) && i in s.nodes && j in s.nodes && i != j && s.nodes[j].raft.role == Leader
    requires a.role == Leader && (StillLeads(s.nodes[i].raft, a) || a.currentTerm !in p.wins)
    ensures s.nodes[j].raft.currentTerm != a.currentTerm
  {
    assert VoterSettled(s.nodes.Keys, p, i, s.nodes[i]) && VoterSettled(s.nodes.Keys, p, j, s.nodes[j]);
  }

  /** The mover, and what is needed to follow its move. */
  ghost predicate Moved(s: State, p: Poll, es: Leads, i: Id, input: Input, a: RaftState) {
    && Fair(s, p) && Written(s, p, es) && i in s.nodes
    && (input.Receive? ==> input.m in s.net)
    && var r := s.nodes[i].raft;
       && Writes(r, a, input) && r.currentTerm <= a.currentTerm && a.peers == r.peers
       && (Wins(r, a) ==> a.currentTerm !in p.wins)
  }

  lemma MoverOk(s: State, p: Poll, es: Leads, i: Id, input: Input, a: RaftState)
    requires Moved(s, p, es, i, input, a)
    ensures var es' := NextLeads(es, i, s.nodes[i].raft, a);
            && ElectionsLe(es, es') && LeaderLogsOk(es') && WriterOk(es, s.nodes[i].raft) && WriterOk(es', a)
            && (input.Receive? ==> PostOk(es, input.m))
  {
    var r := s.nodes[i].raft;
    assert WriterOk(es, s.nodes[i].raft);
    if input.Receive? {
      assert PostOk(es, input.m);
    }
    NextLeadsOk(es, i, r, a, input);
    if a.role == Leader {
      LeaderMoves(es, i, r, a, input);
    } else {
      FollowerMoves(es, r, a, input);
    }
  }

  lemma BystanderOk(s: State, p: Poll, es: Leads, i: Id, input: Input, a: RaftState, j: Id)
    requires Moved(s, p, es, i, input, a) && j in s.nodes && j != i
    ensures WriterOk(NextLeads(es, i, s.nodes[i].raft, a), s.nodes[j].raft)
  {
    MoverOk(s, p, es, i, input, a);
    assert WriterOk(es, s.nodes[j].raft);
    if a.role == Leader && s.nodes[j].raft.role == Leader {
      NoRival(s, p, i, j, a);
    }
    WriterWaits(es, i, s.nodes[i].raft, a, s.nodes[j].raft);
  }

  lemma PostedOk(s: State, p: Poll, es: Leads, i: Id, input: Input, a: RaftState, m: Message)
    requires Moved(s, p, es, i, input, a) && (m in s.net || m in a.msgs)
    ensures PostOk(NextLeads(es, i, s.nodes[i].raft, a), m)
  {
    var es' := NextLeads(es, i, s.nodes[i].raft, a);
    MoverOk(s, p, es, i, input, a);
    if m in s.net {
      assert PostOk(es, m);
      PostGrows(es, es', m);
    } else {
      SaidPostOk(es, es', s.nodes[i].raft, a, input, m);
    }
  }

  lemma InstallWritten(s: State, s': State, p: Poll, es: Leads, i: Id, input: Input, a: RaftState)
    requires Moved(s, p, es, i, input, a)
    requires i in s'.nodes && s'.nodes == s.nodes[i := s'.nodes[i]] && SameJournal(a, s'.nodes[i].raft)
    requires s'.net <= s.net + Elements(a.msgs)
    ensures var es' := NextLeads(es, i, s.nodes[i].raft, a);
            Written(s', NextPoll(p, i, s.nodes[i].raft, a), es') && ElectionsLe(es, es')
  {
    var es' := NextLeads(es, i, s.nodes[i].raft, a);
    MoverOk(s, p, es, i, input, a);
    forall j | j in s'.nodes ensures WriterOk(es', s'.nodes[j].raft) {
      if j != i {
        BystanderOk(s, p, es, i, input, a, j);
      }
    }
    forall m | m in s'.net ensures PostOk(es', m) {
      assert m in s.net || m in Elements(a.msgs);
      PostedOk(s, p, es, i, input, a, m);
    }
  }

  lemma NodeStepWritten(decode: Decoder, s: State, s': State, i: Id, input: Input, draw: nat, p: Poll, es: Leads)
    requires Fair(s, p) && Written(s, p, es) && NodeStep(decode, s, s', i, input, draw) && !Idle(s.nodes[i], input)
    ensures var r, a := s.nodes[i].raft, Advance(s.nodes[i].raft, input, draw);
            Written(s', NextPoll(p, i, r, a), NextLeads(es, i, r, a)) && ElectionsLe(es, NextLeads(es, i, r, a))
  {
    var r, a := s.nodes[i].raft, Advance(s.nodes[i].raft, input, draw);
    MoveShown(s, p, es, i, input, draw);
    StepShape(decode, s, s', i, input, draw);
    FinishEffect(decode, s.nodes[i].(raft := a), input);
    InstallWritten(s, s', p, es, i, input, a);
  }

  lemma MoveShown(s: State, p: Poll, es: Leads, i: Id, input: Input, draw: nat)
    requires Fair(s, p) && Written(s, p, es) && i in s.nodes
    requires input.Receive? ==> input.m in s.net && input.m.to == i
    ensures Moved(s, p, es, i, input, Advance(s.nodes[i].raft, input, draw))
  {
    var r, a := s.nodes[i].raft, Advance(s.nodes[i].raft, input, draw);
    assert VoterSettled(s.nodes.Keys, p, i, s.nodes[i]);
    if input.Receive? {
      assert SpokenOk(s.nodes.Keys, p, s.nodes, input.m);
    }
    AdvanceElectoral(r, input, draw);
    AdvanceWrites(r, input, draw);
    if Wins(r, a) {
      Named(s, p);
      WinIsFirst(s.nodes.Keys, p, s.nodes, i, r, a, input);
    }
  }

  /** Nodes and messages may change in ways that no log depends on. */
  lemma StillWritten(s: State, s': State, p: Poll, es: Leads)
    requires Written(s, p, es) && s'.nodes.Keys == s.nodes.Keys
    requires forall j :: j in s'.nodes ==> s'.nodes[j] == s.nodes[j] || WriterOk(es, s'.nodes[j].raft)
    requires forall m :: m in s'.net ==> m in s.net || PostOk(es, m)
    ensures Written(s', p, es)
  {
    forall j | j in s'.nodes ensures WriterOk(es, s'.nodes[j].raft) { assert WriterOk(es, s.nodes[j].raft); }
    forall m | m in s'.net ensures PostOk(es, m) { assert m in s.net ==> PostOk(es, m); }
  }

  /** A restart leaves the sentinel alone in the log. */
  lemma RestartWritten(s: State, s': State, i: Id, draw: nat, p: Poll, es: Leads)
    requires Written(s, p, es) && RestartStep(s, s', i, draw)
    ensures Written(s', p, es)
  {
    assert s'.nodes[i].raft.log == [SENTINEL];
    StillWritten(s, s', p, es);
  }

  // ---- Runs

  /** What is recorded of a run: its elections and the logs led in them. */
  datatype Journal = Journal(poll: Poll, leads: Leads)

  ghost predicate Kept(s: State, j: Journal) {
    FairInRun(s, j.poll) && Written(s, j.poll, j.leads)
  }

  lemma InitKept(s: State)
    requires Init(s)
    ensures Kept(s, Journal(Poll(map[], {}), map[]))
  {
    InitFair(s);
    forall i | i in s.nodes ensures WriterOk(map[], s.nodes[i].raft) {
      assert Fresh(s.nodes[i]);
    }
  }

  lemma NextKept(decode: Decoder, s: State, s': State, j: Journal) returns (j': Journal)
    requires Kept(s, j) && NextOrRestart(decode, s, s')
    ensures Kept(s', j') && ElectionsLe(j.leads, j'.leads)
  {
    NextGrants(decode, s, s', j.poll);
    if i, draw :| RestartStep(s, s', i, draw) {
      j' := j;
      RestartFair(s, s', i, draw, j.poll);
      RestartWritten(s, s', i, draw, j.poll, j.leads);
    } else if i, input, draw :| NodeStep(decode, s, s', i, input, draw) {
      if Idle(s.nodes[i], input) {
        j' := j;
        assert s' == s;
      } else {
        var r, a := s.nodes[i].raft, Advance(s.nodes[i].raft, input, draw);
        NodeStepFair(decode, s, s', i, input, draw, j.poll);
        NodeStepWritten(decode, s, s', i, input, draw, j.poll, j.leads);
        j' := Journal(NextPoll(j.poll, i, r, a), NextLeads(j.leads, i, r, a));
      }
    } else {
      var m :| PreVoteArrives(s, s', m);
      j' := j;
      PreVoteFair(s, s', m, j.poll);
      StillWritten(s, s', j.poll, j.leads);
    }
  }

  ghost predicate KeptAt(run: seq<State>, js: seq<Journal>, k: int)
    requires 0 <= k < |run| == |js|
  {
    Kept(run[k], js[k])
  }

  ghost predicate LeadsRemembered(js: seq<Journal>, j: int, k: int)
    requires 0 <= j <= k < |js|
  {
    ElectionsLe(js[j].leads, js[k].leads)
  }

  ghost predicate Journals(run: seq<State>, js: seq<Journal>) {
    && |js| == |run| > 0
    && (forall k {:trigger KeptAt(run, js, k)} :: 0 <= k < |run| ==> KeptAt(run, js, k))
    && (forall j, k {:trigger LeadsRemembered(js, j, k)} :: 0 <= j <= k < |run| ==> LeadsRemembered(js, j, k))
  }

  lemma RunKept(decode: Decoder, run: seq<State>) returns (js: seq<Journal>)
    requires RunWithRestarts(decode, run)
    ensures Journals(run, js)
  {
    var inv := (s: State, j: Journal) => Kept(s, j);
    var next := (j: Journal, s: State, j': Journal) => ElectionsLe(j.leads, j'.leads);
    var blank := Journal(Poll(map[], {}), map[]);
    assert Starts(inv, blank) by {
      forall s | Init(s) ensures inv(s, blank) { InitKept(s); }
    }
    assert Continues(decode, inv, next) by {
      forall s, s', j | inv(s, j) && NextOrRestart(decode, s, s') ensures exists j' :: inv(s', j') && next(j, s', j') {
        var j' := NextKept(decode, s, s', j);
        assert inv(s', j') && next(j, s', j');
      }
    }
    js := Record(decode, run, inv, next, blank);
    var le := (j: Journal, j': Journal) => ElectionsLe(j.leads, j'.leads);
    forall k | 0 <= k < |run| ensures KeptAt(run, js, k) { assert RecordedAt(run, js, inv, k); }
    forall k | 0 < k < |run| ensures Rises(js, le, k) { assert GoesOn(run, js, next, k); }
    forall j: nat, k: nat | j <= k < |run| ensures LeadsRemembered(js, j, k) { Ordered(js, le, j, k); }
  }

  lemma LogAt(run: seq<State>, js: seq<Journal>, k: nat, i: Id)
    requires Journals(run, js) && At(run, k, i)
    ensures LeaderLogsOk(js[k].leads) && WriterOk(js[k].leads, RaftOf(run, k, i))
    ensures Configured(run[k].nodes.Keys, i, RaftOf(run, k, i))
  {
    assert KeptAt(run, js, k);
    assert WriterOk(js[k].leads, run[k].nodes[i].raft);
    assert VoterSettled(run[k].nodes.Keys, js[k].poll, i, run[k].nodes[i]);
  }

  /** Logs of any two nodes at any two moments that share an entry's index and term agree up to it. */
  lemma LogMatching(decode: Decoder, run: seq<State>, k: nat, i: Id, l: nat, j: Id, n: nat)
    requires RunWithRestarts(decode, run) && At(run, k, i) && At(run, l, j)
    requires n < |RaftOf(run, k, i).log| && n < |RaftOf(run, l, j).log|
    requires RaftOf(run, k, i).log[n].term == RaftOf(run, l, j).log[n].term
    ensures RaftOf(run, k, i).log[..n + 1] == RaftOf(run, l, j).log[..n + 1]
  {
    var js := RunKept(decode, run);
    var top := if k <= l then l else k;
    LogAt(run, js, k, i);
    LogAt(run, js, l, j);
    assert LeadsRemembered(js, k, top) && LeadsRemembered(js, l, top);
    RootedGrows(js[k].leads, js[top].leads, RaftOf(run, k, i).log);
    RootedGrows(js[l].leads, js[top].leads, RaftOf(run, l, j).log);
    RootedAgree(js[top].leads, RaftOf(run, k, i).log, RaftOf(run, l, j).log, n);
  }

  /** Entries are numbered by position, terms never fall along a log, and none is ahead of the node's own. */
  lemma LogShape(decode: Decoder, run: seq<State>, k: nat, i: Id)
    requires RunWithRestarts(decode, run) && At(run, k, i)
    ensures var r := RaftOf(run, k, i);
            && Numbered(r.log) && Ascending(r.log)
            && forall n :: 0 <= n < |r.log| ==> r.log[n].term <= r.currentTerm
  {
    var js := RunKept(decode, run);
    LogAt(run, js, k, i);
    RootedNumbered(js[k].leads, RaftOf(run, k, i).log);
    RootedAscending(js[k].leads, RaftOf(run, k, i).log);
  }

  /**
   nextIndex stays between 1 and one past the end, whatever replies arrive, so that what a leader sends to a
   peer is its own log, whole, from nextIndex on, with the entry before as anchor.
   */
  lemma NextIndexInRange(decode: Decoder, run: seq<State>, k: nat, i: Id, p: Id)
    requires RunWithRestarts(decode, run) && At(run, k, i) && At(run, k, p) && p != i
    requires RaftOf(run, k, i).role == Leader
    ensures var r := RaftOf(run, k, i);
            var next := Get(r.nextIndex, p);
            var m := HeartbeatFor(r, p);
            && 1 <= next <= LastLogIndex(r.log) + 1 == |r.log|
            && m.prevLogIndex == next - 1 && m.prevLogTerm == r.log[next - 1].term
            && m.entries == r.log[next..]
            && m.prevLogIndex + |m.entries| == LastLogIndex(r.log)
            && m.from == i && m.to == p && m.term == r.currentTerm && m.leaderCommit == r.commitIndex
  {
    var js := RunKept(decode, run);
    LogAt(run, js, k, i);
    RootedNumbered(js[k].leads, RaftOf(run, k, i).log);
    assert p in Elements(RaftOf(run, k, i).peers);
  }

  /** Every append ever sent is numbered from its anchor. */
  lemma AppendsWellNumbered(decode: Decoder, run: seq<State>, k: nat, m: Message)
    requires RunWithRestarts(decode, run) && k < |run| && m in run[k].net && m.AppendEntries?
    ensures WellNumbered(m)
  {
    var js := RunKept(decode, run);
    assert KeptAt(run, js, k);
    assert PostOk(js[k].leads, m) && LeaderLogOk(js[k].leads, m.term);
  }
}
