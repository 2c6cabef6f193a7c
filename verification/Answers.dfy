/**
 How a follower answers an append and what a leader makes of the answer, in every run with restarts, in terms of
 what the logs hold.
 */
module Answers {
  import opened Types
  import opened RaftSpec
  import opened Kv
  import opened NodeSpec
  import opened Cluster
  import opened History
  import opened Invariant
  import opened Frames
  import opened Regions
  import opened Logs
  import opened Voting

  // ---- Answering

  /** The log has an entry of the append's previous term at its previous index. */
  predicate Anchored(log: Log, m: Message)
    requires m.AppendEntries?
  {
    m.prevLogIndex < |log| && log[m.prevLogIndex].term == m.prevLogTerm
  }

  /**
   Where to look next: at the end of a log that is too short; otherwise just below the run of entries of one term
   that ends at the entry that differs.
   */
  ghost predicate IsHint(log: Log, prev: nat, hint: nat) {
    if prev >= |log| then hint + 1 == |log|
    else
      && hint < prev
      && (forall j :: hint < j <= prev ==> log[j].term == log[prev].term)
      && (hint == 0 || log[hint].term != log[prev].term)
  }

  lemma {:induction false} ConflictRun(log: Log, hint: nat, t: nat)
    requires 1 <= hint < |log| && log[hint].term == t
    ensures var c := ConflictStart(log, hint, t);
            && 1 <= c <= hint
            && (forall j :: c <= j <= hint ==> log[j].term == t)
            && (c == 1 || log[c - 1].term != t)
    decreases hint
  {
    if hint > 1 && log[hint - 1].term == t {
      ConflictRun(log, hint - 1, t);
    }
  }

  lemma HintMeans(log: Log, m: Message)
    requires m.AppendEntries? && Numbered(log) && m.prevLogIndex > 0
    ensures IsHint(log, m.prevLogIndex, BackoffHint(log, m))
  {
    if m.prevLogIndex < |log| {
      ConflictRun(log, m.prevLogIndex, log[m.prevLogIndex].term);
    }
  }

  /** In any run, the anchor of an append at index zero is the sentinel, which every log has. */
  lemma AnchorAtZero(decode: Decoder, run: seq<State>, k: nat, i: Id, m: Message)
    requires RunWithRestarts(decode, run) && At(run, k, i) && m in run[k].net && m.AppendEntries?
    ensures Consistent(RaftOf(run, k, i).log, m) <==> Anchored(RaftOf(run, k, i).log, m)
    ensures m.prevLogIndex == 0 ==> Anchored(RaftOf(run, k, i).log, m)
  {
    var js := RunKept(decode, run);
    LogAt(run, js, k, i);
    AtRest(decode, run, k, i);
    assert KeptAt(run, js, k);
    assert PostOk(js[k].leads, m) && LeaderLogOk(js[k].leads, m.term);
  }

  /** A follower's raft after an append of its own or a later term, and what it answers. */
  lemma AppendStep(r: RaftState, m: Message, draw: nat)
    requires m.AppendEntries? && m.term >= r.currentTerm && r.msgs == []
    ensures var a := Step(r, m, draw);
            && a.currentTerm == m.term && a.role == Follower && |a.msgs| == 1
            && if Consistent(r.log, m) then a.msgs[0] == AppendEntriesResp(r.id, m.from, m.term, false, LastLogIndex(a.log))
               else && a.msgs[0] == AppendEntriesResp(r.id, m.from, m.term, true, BackoffHint(r.log, m))
                    && a.log == r.log && a.commitIndex == r.commitIndex
  {
    StepDownKeeps(r, m, draw);
    var s := StepDown(r, m, draw);
    RecogniseKeeps(s, m, draw);
    var f := Recognise(s, m, draw);
    AnswerAppendKeeps(f, m);
    if Consistent(f.log, m) {
      AnswerAccepted(f, m);
    }
  }

  /** The answer to an append, and what it leaves of the node's state r. */
  ghost predicate Answered(r: RaftState, m: Message, reply: Message, a: RaftState)
    requires m.AppendEntries?
  {
    && reply.AppendEntriesResp? && reply.from == r.id && reply.to == m.from
    && if m.term < r.currentTerm then reply == AppendEntriesResp(r.id, m.from, r.currentTerm, true, 0) && SameBut(r, a)
       else
         && reply.term == m.term && a.currentTerm == m.term && a.role == Follower
         && (reply.reject <==> !Anchored(r.log, m))
         && (!reply.reject ==> reply.index == LastLogIndex(a.log))
         && (reply.reject ==> IsHint(r.log, m.prevLogIndex, reply.index) && a.log == r.log && a.commitIndex == r.commitIndex)
  }

  /** The same, whatever has been applied since and whatever is on its way out. */
  predicate SameBut(r: RaftState, a: RaftState) {
    a == r.(lastApplied := a.lastApplied, msgs := a.msgs)
  }

  lemma StaleAppend(r: RaftState, m: Message, draw: nat)
    requires m.AppendEntries? && m.term < r.currentTerm && r.msgs == []
    ensures var a := Step(r, m, draw);
            a.msgs == [AppendEntriesResp(r.id, m.from, r.currentTerm, true, 0)] && SameBut(r, a)
  {
  }

  lemma AppendAnswered(r: RaftState, m: Message, draw: nat)
    requires m.AppendEntries? && r.msgs == [] && Numbered(r.log)
    requires (Consistent(r.log, m) <==> Anchored(r.log, m)) && (m.prevLogIndex == 0 ==> Anchored(r.log, m))
    ensures var a := Step(r, m, draw);
            |a.msgs| == 1 && Answered(r, m, a.msgs[0], a)
  {
    if m.term < r.currentTerm {
      StaleAppend(r, m, draw);
    } else {
      AppendStep(r, m, draw);
      if !Anchored(r.log, m) {
        HintMeans(r.log, m);
      }
    }
  }

  /** The rest of the section changes nothing the answer speaks of. */
  lemma AnsweredStays(decode: Decoder, n: NodeState, m: Message, draw: nat)
    requires m.AppendEntries?
    ensures var (n', outs) := Region(decode, n, Receive(m), draw);
            outs == Step(n.raft, m, draw).msgs && SameBut(Step(n.raft, m, draw), n'.raft)
  {
    FinishEffect(decode, n.(raft := Step(n.raft, m, draw)), Receive(m));
  }

  /**
   An append of the node's own or a later term is accepted exactly when its anchor is in the node's log, and then
   the answer names the end of the log; otherwise the log stays and the answer says where to look. One of an
   earlier term is refused and leaves the node as it was.
   */
  lemma AppendAnswer(decode: Decoder, run: seq<State>, k: nat, i: Id, m: Message, draw: nat)
    requires RunWithRestarts(decode, run) && 0 < k < |run| && NodeStep(decode, run[k - 1], run[k], i, Receive(m), draw)
    requires m.AppendEntries?
    ensures At(run, k, i)
    ensures var outs := Region(decode, run[k - 1].nodes[i], Receive(m), draw).1;
            && |outs| == 1 && Answered(RaftOf(run, k - 1, i), m, outs[0], RaftOf(run, k, i))
            && LastLogIndex(RaftOf(run, k, i).log) == |RaftOf(run, k, i).log| - 1
  {
    AtRest(decode, run, k - 1, i);
    AtRest(decode, run, k, i);
    AnchorAtZero(decode, run, k - 1, i, m);
    AppendAnswered(RaftOf(run, k - 1, i), m, draw);
    AnsweredStays(decode, run[k - 1].nodes[i], m, draw);
  }

  /**
   Being anchored is agreeing with the sender: whenever the sender leads the append's term with a log that reaches
   the anchor, the node has the anchor exactly when its log is the sender's through it.
   */
  lemma AnchoredIsAgreeing(decode: Decoder, run: seq<State>, k: nat, i: Id, m: Message, l: nat)
    requires RunWithRestarts(decode, run) && At(run, k, i) && m in run[k].net && m.AppendEntries? && At(run, l, m.from)
    requires RaftOf(run, l, m.from).role == Leader && RaftOf(run, l, m.from).currentTerm == m.term
    requires m.prevLogIndex < |RaftOf(run, l, m.from).log|
    ensures Anchored(RaftOf(run, k, i).log, m) <==>
            RaftOf(run, l, m.from).log[..m.prevLogIndex + 1] <= RaftOf(run, k, i).log
  {
    var js := RunKept(decode, run);
    var prev, log, led := m.prevLogIndex, RaftOf(run, k, i).log, RaftOf(run, l, m.from).log;
    LogAt(run, js, l, m.from);
    assert KeptAt(run, js, k);
    assert PostOk(js[k].leads, m);
    assert if k <= l then LeadsRemembered(js, k, l) else LeadsRemembered(js, l, k);
    assert led[prev].term == m.prevLogTerm;
    if Anchored(log, m) {
      LogMatching(decode, run, k, i, l, m.from, prev);
    }
    if led[..prev + 1] <= log {
      assert led[..prev + 1][prev] == log[prev];
    }
  }

  // ---- Taking the answer

  /** Nothing in the leader's books has changed but what it knows of one peer. */
  ghost predicate OnlyAbout(r: RaftState, a: RaftState, p: Id) {
    forall q :: q != p ==> Get(a.nextIndex, q) == Get(r.nextIndex, q) && Get(a.matchIndex, q) == Get(r.matchIndex, q)
  }

  /**
   A reply of its term tells a leader how far the peer has got, or where the next append to it is to be anchored:
   at the hint, or one before if there is none, but never before the sentinel.
   */
  lemma ReplyTaken(r: RaftState, m: Message, draw: nat)
    requires r.role == Leader && m.AppendEntriesResp? && m.term == r.currentTerm && r.msgs == []
    ensures var a := Step(r, m, draw);
            && a.role == Leader && a.currentTerm == r.currentTerm && a.votedFor == r.votedFor && a.log == r.log && a.msgs == []
            && OnlyAbout(r, a, m.from)
            && a.heartbeatAcked == r.heartbeatAcked + (if m.reject then 0 else 1)
            && (m.reject ==> Get(a.matchIndex, m.from) == Get(r.matchIndex, m.from) && a.commitIndex == r.commitIndex)
            && (m.index > 0 ==> HeartbeatFor(a, m.from).prevLogIndex == m.index)
            && (m.index > 0 && !m.reject ==> Get(a.matchIndex, m.from) == m.index)
            && (m.index == 0 && !m.reject ==>
                  Get(a.matchIndex, m.from) == Get(r.matchIndex, m.from) && Get(a.nextIndex, m.from) == Get(r.nextIndex, m.from))
            && (m.index == 0 && m.reject && Get(r.nextIndex, m.from) > 0 ==>
                  var prev := HeartbeatFor(r, m.from).prevLogIndex;
                  HeartbeatFor(a, m.from).prevLogIndex == if prev == 0 then 0 else prev - 1)
  {
    AppendRespKeeps(r, m);
    assert Step(r, m, draw) == HandleAppendEntriesResp(r, m);
  }

  lemma ReplyDropped(r: RaftState, m: Message, draw: nat)
    requires m.AppendEntriesResp? && (r.role != Leader || m.term != r.currentTerm)
    ensures Step(r, m, draw) == StepDown(r, m, draw)
  {
  }

  /** A reply that comes too late, or to a node that does not lead, changes nothing; one of a later term ends the lead. */
  lemma ReplyIgnored(decode: Decoder, run: seq<State>, k: nat, i: Id, m: Message, draw: nat)
    requires RunWithRestarts(decode, run) && At(run, k, i) && m.AppendEntriesResp?
    requires RaftOf(run, k, i).role != Leader || m.term != RaftOf(run, k, i).currentTerm
    ensures var r := RaftOf(run, k, i);
            var (n, outs) := Region(decode, run[k].nodes[i], Receive(m), draw);
            && outs == []
            && if m.term <= r.currentTerm then SameBut(r, n.raft) && n.stored == run[k].nodes[i].stored
               else n.stored == HardState(m.term, NONE) && Retires(r, n.raft, m.term, draw)
  {
    AtRest(decode, run, k, i);
    var r := RaftOf(run, k, i);
    ReplyDropped(r, m, draw);
    FinishEffect(decode, run[k].nodes[i].(raft := StepDown(r, m, draw)), Receive(m));
  }
}
