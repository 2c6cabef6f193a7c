/** A client that is told its proposal was applied can rely on it, as long as the leader it asked still leads. */
module Proposals {
  import opened Types
  import opened RaftSpec
  import opened Kv
  import opened NodeSpec
  import opened Cluster
  import opened Frames
  import opened Invariant
  import opened Safety
  import opened Runs
  import opened Logs
  import opened Commits
  import Timers
  import Voting
  import H = History

  /** No ticket waits twice, or after it has been signalled, or is signalled twice. */
  ghost predicate TicketsOk(n: NodeState) {
    && Distinct(n.closed)
    && (forall t :: t in n.closed ==> t < n.tickets)
    && (forall x :: x in n.pending ==> n.pending[x] < n.tickets && n.pending[x] !in n.closed)
    && (forall x, y :: x in n.pending && y in n.pending && n.pending[x] == n.pending[y] ==> x == y)
  }

  lemma ApplyEntryTickets(decode: Decoder, n: NodeState, e: Entry)
    requires TicketsOk(n)
    ensures TicketsOk(ApplyEntry(decode, n, e))
  {
    var n' := ApplyEntry(decode, n, e);
    if e.index in n.pending {
      var t := n.pending[e.index];
      assert n'.closed == n.closed + [t];
    }
  }

  /** Applying entries signals the waiting tickets of their indices and no others. */
  lemma {:induction false} ApplyEntriesTickets(decode: Decoder, n: NodeState, entries: seq<Entry>, x: nat)
    requires TicketsOk(n) && x in n.pending
    ensures var n' := ApplyEntries(decode, n, entries);
            && TicketsOk(n')
            && n.closed <= n'.closed
            && ((exists k :: 0 <= k < |entries| && entries[k].index == x) ==> n.pending[x] in n'.closed)
            && (!(exists k :: 0 <= k < |entries| && entries[k].index == x) ==> x in n'.pending && n'.pending[x] == n.pending[x])
  {
    if entries != [] {
      var init, e := entries[..|entries| - 1], entries[|entries| - 1];
      ApplyEntriesTickets(decode, n, init, x);
      ApplyEntryTickets(decode, ApplyEntries(decode, n, init), e);
      assert forall k :: 0 <= k < |init| ==> init[k] == entries[k];
    }
  }

  lemma {:induction false} ApplyEntriesOk(decode: Decoder, n: NodeState, entries: seq<Entry>)
    requires TicketsOk(n)
    ensures TicketsOk(ApplyEntries(decode, n, entries)) && n.closed <= ApplyEntries(decode, n, entries).closed
  {
    if entries != [] {
      ApplyEntriesOk(decode, n, entries[..|entries| - 1]);
      ApplyEntryTickets(decode, ApplyEntries(decode, n, entries[..|entries| - 1]), entries[|entries| - 1]);
    }
  }

  lemma FinishTickets(decode: Decoder, a: NodeState, input: Input)
    requires TicketsOk(a)
    ensures TicketsOk(Finish(decode, a, input).0)
  {
    if Applies(input) {
      ApplyEntriesOk(decode, a.(raft := ApplicableEntries(a.raft).0), ApplicableEntries(a.raft).1);
    }
  }

  /** Signals are given at most once: this holds of every node in every run, whatever happens. */
  lemma {:induction false} SignalsAreUnique(decode: Decoder, run: seq<State>, k: nat, i: Id)
    requires Run(decode, run) && At(run, k, i)
    ensures TicketsOk(run[k].nodes[i])
    decreases k
  {
    if k == 0 {
      assert Fresh(run[0].nodes[i]);
    } else {
      assert Moves(decode, run, k);
      SameNodes(decode, run[k - 1], run[k]);
      SignalsAreUnique(decode, run, k - 1, i);
      NextTickets(decode, run[k - 1], run[k], i);
    }
  }

  lemma SameNodes(decode: Decoder, s: State, s': State)
    requires Next(decode, s, s')
    ensures s'.nodes.Keys == s.nodes.Keys
  {
    if j, input, draw :| NodeStep(decode, s, s', j, input, draw) {
    } else {
      var m :| PreVoteArrives(s, s', m);
    }
  }

  lemma NextTickets(decode: Decoder, s: State, s': State, i: Id)
    requires Next(decode, s, s') && i in s.nodes && i in s'.nodes && TicketsOk(s.nodes[i])
    ensures TicketsOk(s'.nodes[i])
  {
    if j, input, draw :| NodeStep(decode, s, s', j, input, draw) {
      if j == i && !(input.Client? && s.nodes[i].raft.role != Leader) {
        FinishTickets(decode, s.nodes[i].(raft := Advance(s.nodes[i].raft, input, draw)), input);
      }
    } else {
      var m :| PreVoteArrives(s, s', m);
    }
  }

  // ---- A proposal on its way

  /** The entry is in place, and its ticket waits until it is applied and has been signalled since. */
  ghost predicate Waiting(n: NodeState, x: nat, e: Entry, t: nat) {
    && 0 < x < |n.raft.log| && n.raft.log[x] == e
    && (n.raft.lastApplied < x ==> x in n.pending && n.pending[x] == t)
    && (x <= n.raft.lastApplied ==> t in n.closed)
  }

  /** Entries handed over lie between the old applied index and the new one, by their own numbering. */
  lemma FinishWaits(decode: Decoder, n: NodeState, a: RaftState, input: Input, x: nat, e: Entry, t: nat)
    requires TicketsOk(n) && Waiting(n, x, e, t)
    requires n.raft.log <= a.log && Numbered(a.log)
    requires a.lastApplied == n.raft.lastApplied <= a.commitIndex < |a.log|
    requires input.Client? ==> LastLogIndex(a.log) > x
    ensures Waiting(Finish(decode, n.(raft := a), input).0, x, e, t)
  {
    var b := n.(raft := a);
    if Applies(input) {
      ApplicableExactly(a);
      var (r, entries) := ApplicableEntries(a);
      ApplyEntriesEffect(decode, b.(raft := r), entries);
      ApplyEntriesOk(decode, b.(raft := r), entries);
      if a.lastApplied < x {
        ApplyEntriesTickets(decode, b.(raft := r), entries, x);
        if x <= a.commitIndex {
          assert entries[x - a.lastApplied - 1].index == x;
        }
      }
    }
  }

  lemma LeaderKeepsWaiting(decode: Decoder, run: seq<State>, k: nat, i: Id, x: nat, e: Entry, t: nat)
    requires Run(decode, run) && 0 < k && At(run, k - 1, i) && At(run, k, i)
    requires LeadsSame(run, i, k - 1, k)
    requires Waiting(run[k - 1].nodes[i], x, e, t)
    ensures Waiting(run[k].nodes[i], x, e, t)
  {
    var s, s' := run[k - 1], run[k];
    var n := s.nodes[i];
    assert Moves(decode, run, k);
    if j, input, draw :| NodeStep(decode, s, s', j, input, draw) {
      if j == i {
        StepKeepsWaiting(decode, run, k, i, input, draw, x, e, t);
      }
    } else {
      var m :| PreVoteArrives(s, s', m);
    }
  }

  ghost predicate LeadsSame(run: seq<State>, i: Id, k: int, l: int) {
    && At(run, k, i) && At(run, l, i)
    && run[k].nodes[i].raft.role == Leader && run[l].nodes[i].raft.role == Leader
    && run[k].nodes[i].raft.currentTerm == run[l].nodes[i].raft.currentTerm
  }

  lemma StepKeepsWaiting(decode: Decoder, run: seq<State>, k: nat, i: Id, input: Input, draw: nat, x: nat, e: Entry, t: nat)
    requires Run(decode, run) && 0 < k && LeadsSame(run, i, k - 1, k)
    requires NodeStep(decode, run[k - 1], run[k], i, input, draw)
    requires Waiting(run[k - 1].nodes[i], x, e, t)
    ensures Waiting(run[k].nodes[i], x, e, t)
  {
    var s, s' := run[k - 1], run[k];
    var n := s.nodes[i];
    var a := Advance(n.raft, input, draw);
    StepShape(decode, s, s', i, input, draw);
    FinishEffect(decode, n.(raft := a), input);
    AdvanceFrame(n.raft, input, draw);
    Subsumes(decode, run);
    LogShape(decode, run, k - 1, i);
    LogShape(decode, run, k, i);
    CommittedForever(decode, run, k - 1, k - 1, i);
    CommittedForever(decode, run, k, k, i);
    SignalsAreUnique(decode, run, k - 1, i);
    CommitOfStep(decode, run, k, i, input, draw);
    if input.Client? {
      ProposeGrows(n.raft, input.data);
    }
    FinishWaits(decode, n, a, input, x, e, t);
  }

  lemma CommitOfStep(decode: Decoder, run: seq<State>, k: nat, i: Id, input: Input, draw: nat)
    requires Run(decode, run) && 0 < k && At(run, k - 1, i) && At(run, k, i)
    requires NodeStep(decode, run[k - 1], run[k], i, input, draw)
    requires !(input.Client? && RaftOf(run, k - 1, i).role != Leader)
    ensures var r, a := RaftOf(run, k - 1, i), Advance(RaftOf(run, k - 1, i), input, draw);
            a.lastApplied == r.lastApplied <= a.commitIndex
  {
    var hs := RunGood(decode, run);
    assert GoodAt(decode, run, hs, k - 1);
    CommitOfMove(decode, run[k - 1], run[k], hs[k - 1], i, input, draw);
  }

  lemma CommitOfMove(decode: Decoder, s: State, s': State, h: H.History, i: Id, input: Input, draw: nat)
    requires Good(decode, s, h) && NodeStep(decode, s, s', i, input, draw)
    ensures var r, a := s.nodes[i].raft, Advance(s.nodes[i].raft, input, draw);
            a.lastApplied == r.lastApplied <= a.commitIndex
  {
    CommitRises(Rafts(s), s.net, h, i, input, draw);
    assert H.NodeOk(Rafts(s).Keys, h, s.net, i, Rafts(s)[i]);
  }

  lemma {:induction false} ProposalWaits(decode: Decoder, run: seq<State>, k: nat, l: nat, i: Id, x: nat, e: Entry, t: nat)
    requires Run(decode, run) && k <= l && At(run, l, i)
    requires forall n {:trigger LeadsSame(run, i, n - 1, n)} :: k < n <= l ==> LeadsSame(run, i, n - 1, n)
    requires At(run, k, i) && Waiting(run[k].nodes[i], x, e, t)
    ensures Waiting(run[l].nodes[i], x, e, t)
    decreases l
  {
    if k < l {
      assert LeadsSame(run, i, l - 1, l);
      ProposalWaits(decode, run, k, l - 1, i, x, e, t);
      LeaderKeepsWaiting(decode, run, l, i, x, e, t);
    }
  }

  /** A leader that takes a proposal puts it at the end of its log and has a fresh ticket wait for that index. */
  lemma ProposalStarts(decode: Decoder, run: seq<State>, k: nat, i: Id, data: Bytes, draw: nat)
    requires Run(decode, run) && 0 < k < |run| && At(run, k - 1, i) && RaftOf(run, k - 1, i).role == Leader
    requires NodeStep(decode, run[k - 1], run[k], i, Client(data), draw)
    ensures At(run, k, i)
    ensures var r := RaftOf(run, k - 1, i);
            var x := LastLogIndex(r.log) + 1;
            && Propose(r, data).1 == Some(x)
            && Waiting(run[k].nodes[i], x, Entry(x, r.currentTerm, Command, data), run[k - 1].nodes[i].tickets)
  {
    var n := run[k - 1].nodes[i];
    Subsumes(decode, run);
    LogShape(decode, run, k - 1, i);
    CommittedForever(decode, run, k - 1, k - 1, i);
    ProposeGrows(n.raft, data);
    StepShape(decode, run[k - 1], run[k], i, Client(data), draw);
  }

  /**
   If a node leads one term from the moment it takes a proposal, then the proposal's ticket has been signalled
   exactly when its index has been applied, the entry applied there is the one proposed, and no ticket is ever
   signalled twice.
   */
  lemma ProposalAcknowledged(decode: Decoder, run: seq<State>, k: nat, l: nat, i: Id, data: Bytes, draw: nat)
    requires Run(decode, run) && 0 < k <= l < |run| && At(run, k - 1, i) && At(run, l, i)
    requires RaftOf(run, k - 1, i).role == Leader
    requires NodeStep(decode, run[k - 1], run[k], i, Client(data), draw)
    requires forall n {:trigger LeadsSame(run, i, n - 1, n)} :: k <= n <= l ==> LeadsSame(run, i, n - 1, n)
    ensures var r, n := RaftOf(run, k - 1, i), run[l].nodes[i];
            var x := LastLogIndex(r.log) + 1;
            var t := run[k - 1].nodes[i].tickets;
            && Propose(r, data).1 == Some(x)
            && Distinct(n.closed)
            && (t in n.closed <==> x <= n.raft.lastApplied)
            && (t in n.closed ==> x <= |n.applied| && n.applied[x - 1] == Entry(x, r.currentTerm, Command, data))
  {
    var r, n := RaftOf(run, k - 1, i), run[l].nodes[i];
    var x := LastLogIndex(r.log) + 1;
    var t := run[k - 1].nodes[i].tickets;
    var e := Entry(x, r.currentTerm, Command, data);
    ProposalStarts(decode, run, k, i, data, draw);
    ProposalWaits(decode, run, k, l, i, x, e, t);
    SignalsAreUnique(decode, run, l, i);
    TableIsReplay(decode, run, l, i);
  }

  /**
   While the proposer leads its term, the ticket is signalled in the very section in which its commit index reaches
   the entry: not before, and not later.
   */
  lemma SignalledOnCommit(decode: Decoder, run: seq<State>, k: nat, l: nat, i: Id, data: Bytes, draw: nat)
    requires Run(decode, run) && 0 < k <= l < |run| && At(run, k - 1, i) && At(run, l, i)
    requires RaftOf(run, k - 1, i).role == Leader
    requires NodeStep(decode, run[k - 1], run[k], i, Client(data), draw)
    requires forall n {:trigger LeadsSame(run, i, n - 1, n)} :: k <= n <= l ==> LeadsSame(run, i, n - 1, n)
    ensures var x, t := |RaftOf(run, k - 1, i).log|, run[k - 1].nodes[i].tickets;
            t in run[l].nodes[i].closed <==> x <= RaftOf(run, l, i).commitIndex
  {
    ProposalAcknowledged(decode, run, k, l, i, data, draw);
    CommittedIsApplied(decode, run, l, i);
    Subsumes(decode, run);
    LogShape(decode, run, k - 1, i);
  }

  /** A proposal is sent to every peer at once. */
  lemma ProposalSent(decode: Decoder, run: seq<State>, k: nat, i: Id, data: Bytes, draw: nat)
    requires RunWithRestarts(decode, run) && At(run, k, i)
    ensures var r := RaftOf(run, k, i);
            var (n, outs) := Region(decode, run[k].nodes[i], Client(data), draw);
            if r.role == Leader
            then && n.raft.log == r.log + [Entry(|r.log|, r.currentTerm, Command, data)]
                 && n.raft.matchIndex == r.matchIndex[i := |r.log|]
                 && n.raft.nextIndex == r.nextIndex && n.raft.commitIndex == r.commitIndex
                 && n.stored == run[k].nodes[i].stored && Voting.Addresses(n.raft, outs)
            else n == run[k].nodes[i] && outs == []
  {
    Voting.AtRest(decode, run, k, i);
    var r := RaftOf(run, k, i);
    if r.role == Leader {
      var e := Entry(LastLogIndex(r.log) + 1, r.currentTerm, Command, data);
      var b := r.(log := r.log + [e], matchIndex := r.matchIndex[r.id := e.index]);
      var a := Propose(r, data).0;
      FinishEffect(decode, run[k].nodes[i].(raft := a), Client(data));
      Timers.BroadcastSays(b, a.(msgs := []));
    }
  }
}
