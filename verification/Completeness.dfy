/** Log matching and leader completeness, as consequences of a well-formed history. */
module Completeness {
  import opened Types
  import opened RaftSpec
  import opened History

  lemma RootedNumbered(elections: map<nat, Election>, log: Log)
    requires LeaderLogsOk(elections) && Rooted(elections, log)
    ensures Numbered(log) && LastLogIndex(log) == |log| - 1
  {
    forall k | 0 <= k < |log| ensures log[k].index == k {
      if k > 0 {
        assert RootedAt(elections, log, k) && LeaderLogOk(elections, log[k].term);
        assert log[k] == elections[log[k].term].log[k];
      }
    }
  }

  lemma RootedAscending(elections: map<nat, Election>, log: Log)
    requires LeaderLogsOk(elections) && Rooted(elections, log)
    ensures Ascending(log)
  {
    forall j, k | 0 <= j <= k < |log| ensures log[j].term <= log[k].term {
      if k > 0 {
        assert RootedAt(elections, log, k) && LeaderLogOk(elections, log[k].term);
        assert log[j] == elections[log[k].term].log[j] && log[k] == elections[log[k].term].log[k];
      }
    }
  }

  lemma RootedPrefix(elections: map<nat, Election>, log: Log, p: Log)
    requires Rooted(elections, log) && 0 < |p| && p <= log
    ensures Rooted(elections, p)
  {
    forall k | 1 <= k < |p| ensures RootedAt(elections, p, k) {
      assert RootedAt(elections, log, k);
      assert p[k] == log[k] && p[..k + 1] == log[..k + 1];
    }
  }

  /** Two logs with the same term at an index are the same up to that index. */
  lemma RootedAgree(elections: map<nat, Election>, a: Log, b: Log, k: nat)
    requires Rooted(elections, a) && Rooted(elections, b)
    requires k < |a| && k < |b| && a[k].term == b[k].term
    ensures a[..k + 1] == b[..k + 1]
  {
    if k > 0 {
      assert RootedAt(elections, a, k) && RootedAt(elections, b, k);
    }
  }

  /** A log ending in an entry of some term is a prefix of what that term's leader led. */
  lemma RootedWhole(elections: map<nat, Election>, log: Log)
    requires Rooted(elections, log) && |log| > 1
    ensures log[|log| - 1].term in elections
    ensures log <= elections[log[|log| - 1].term].log
  {
    var k := |log| - 1;
    assert RootedAt(elections, log, k) && log[..k + 1] == log;
  }

  lemma QuorumsMeet(members: set<Id>, a: set<Id>, b: set<Id>) returns (v: Id)
    requires a <= members && b <= members
    requires |a| >= Quorum(members) && |b| >= Quorum(members)
    ensures v in a && v in b
  {
    if a * b == {} {
      SubsetSize(a + b, members);
      assert false;
    }
    v :| v in a * b;
  }

  lemma {:induction false} SubsetSize<T>(a: set<T>, b: set<T>)
    requires a <= b
    ensures |a| <= |b|
  {
    if a != {} {
      var x :| x in a;
      SubsetSize(a - {x}, b - {x});
    }
  }

  /** Of two prefixes of one sequence, the shorter is a prefix of the longer. */
  lemma Nested<T>(a: seq<T>, b: seq<T>, whole: seq<T>)
    requires a <= whole && b <= whole && |a| <= |b|
    ensures a <= b
  {
  }

  lemma LaterTermIsLonger(elections: map<nat, Election>, log: Log)
    requires LeaderLogsOk(elections) && Rooted(elections, log) && |log| > 1
    ensures LastLogTerm(log) in elections && log <= elections[LastLogTerm(log)].log
    ensures |log| > |elections[LastLogTerm(log)].base|
  {
    RootedWhole(elections, log);
    var t := LastLogTerm(log);
    assert LeaderLogOk(elections, t);
    assert elections[t].log[|log| - 1] == log[|log| - 1];
  }

  /** A candidate at least as recent as a voter holds whatever chosen prefix the voter holds. */
  lemma RecentHolds(elections: map<nat, Election>, candidate: Log, voter: Log, p: Log)
    requires LeaderLogsOk(elections)
    requires Rooted(elections, candidate) && Rooted(elections, voter)
    requires AtLeastAsRecent(candidate, voter)
    requires 1 < |p| && p <= voter
    requires LastLogTerm(voter) > 0
    requires LastLogTerm(candidate) > LastLogTerm(voter) ==>
               && LastLogTerm(candidate) in elections
               && p <= elections[LastLogTerm(candidate)].base
    ensures p <= candidate
  {
    var t := LastLogTerm(candidate);
    assert |candidate| > 1 by { assert candidate[0] == SENTINEL; }
    LaterTermIsLonger(elections, candidate);
    if t > LastLogTerm(voter) {
      assert elections[t].base <= elections[t].log by { assert LeaderLogOk(elections, t); }
      Nested(p, candidate, elections[t].log);
    } else {
      RootedNumbered(elections, candidate);
      RootedNumbered(elections, voter);
      LaterTermIsLonger(elections, voter);
      Nested(voter, candidate, elections[t].log);
    }
  }

  /**
   Leader completeness: a prefix chosen in some term is part of the log that every leader of a later term
   started from.
   */
  lemma {:induction false} LeaderCompleteness(members: set<Id>, h: History, term: nat, n: nat, later: nat)
    requires HistoryOk(members, h)
    requires Chosen(members, h, term, n)
    requires term < later && later in h.elections
    ensures Prefix(h, term, n) <= h.elections[later].base
    decreases later
  {
    var e := h.elections[later];
    var p := Prefix(h, term, n);
    assert ElectionOk(members, h, later) && LeaderLogOk(h.elections, later) && LeaderLogOk(h.elections, term);
    var v := QuorumsMeet(members, AckSet(members, h, term, n), e.ballots.Keys);
    var ballot := e.ballots[v];
    assert Acked(h, v, term, n);
    if !(p <= ballot) {
      assert Overridden(h, term, n, later);
      var t :| term < t < later && t in h.elections && !(p <= h.elections[t].base);
      LeaderCompleteness(members, h, term, n, t);
      assert false;
    }
    RootedPrefix(h.elections, e.log, e.base);
    RootedAscending(h.elections, ballot);
    assert p[n].term == term && ballot[n] == p[n] && LastLogTerm(ballot) >= term;
    LeaderTermsPositive(h.elections, term);
    var t := LastLogTerm(e.base);
    if t > LastLogTerm(ballot) {
      assert e.base[|e.base| - 1] == e.log[|e.base| - 1];
      RootedWhole(h.elections, e.base);
      LeaderCompleteness(members, h, term, n, t);
    }
    RecentHolds(h.elections, e.base, ballot, p);
  }

  lemma LeaderTermsPositive(elections: map<nat, Election>, term: nat)
    requires LeaderLogsOk(elections) && term in elections
    ensures term > 0
  {
    assert LeaderLogOk(elections, term);
    assert elections[term].log[0].term < term;
  }

  lemma PrefixesOfLog(h: History, t: nat, n: nat, k: nat)
    requires t in h.elections && n <= k < |h.elections[t].log|
    ensures Prefix(h, t, n) <= Prefix(h, t, k) <= h.elections[t].log
  {
  }

  lemma BaseOfLog(elections: map<nat, Election>, t: nat)
    requires LeaderLogsOk(elections) && t in elections
    ensures elections[t].base <= elections[t].log
  {
    assert LeaderLogOk(elections, t);
  }

  /** Two chosen prefixes never disagree. */
  lemma ChosenAgree(members: set<Id>, h: History, t1: nat, n1: nat, t2: nat, n2: nat)
    requires HistoryOk(members, h)
    requires Chosen(members, h, t1, n1) && Chosen(members, h, t2, n2)
    requires t1 <= t2
    ensures Prefix(h, t1, n1) <= h.elections[t2].log && Prefix(h, t2, n2) <= h.elections[t2].log
  {
    PrefixesOfLog(h, t2, n2, n2);
    if t1 < t2 {
      LeaderCompleteness(members, h, t1, n1, t2);
      BaseOfLog(h.elections, t2);
    }
  }

  /** What a node in some term may regard as committed is held by the leader of that term. */
  lemma CommittedHeld(members: set<Id>, h: History, term: nat, log: Log, c: nat)
    requires HistoryOk(members, h) && term in h.elections
    requires Rooted(h.elections, log)
    requires CommitOk(members, h, term, log, c)
    ensures log[..c + 1] <= h.elections[term].log
    ensures c < |h.elections[term].base| || log[..c + 1] == Prefix(h, term, c)
  {
    if c == 0 {
      assert LeaderLogOk(h.elections, term);
      assert log[..1] == [SENTINEL] == h.elections[term].log[..1];
    } else {
      var t: nat, n: nat :| t <= term && Chosen(members, h, t, n) && c <= n && Prefix(h, t, c) <= log;
      Nested(Prefix(h, t, c), log[..c + 1], log);
      PrefixesOfLog(h, t, c, n);
      if t < term {
        LeaderCompleteness(members, h, t, n, term);
        BaseOfLog(h.elections, term);
      }
    }
  }
}
