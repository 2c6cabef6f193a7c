/** The leader's commit scan finds an order statistic of how far its cluster has got. */
module CommitScan {
  import opened Types
  import opened RaftSpec
  import opened Kv
  import opened Cluster
  import opened History
  import opened ReplicationSteps
  import opened Completeness
  import opened Invariant
  import opened Safety

  // ---- The k-th largest of a sequence, by sorting

  predicate Descending(s: seq<nat>) {
    forall j, k :: 0 <= j < k < |s| ==> s[j] >= s[k]
  }

  function Insert(x: nat, s: seq<nat>): seq<nat> {
    if s == [] || x >= s[0] then [x] + s else [s[0]] + Insert(x, s[1..])
  }

  function SortDescending(s: seq<nat>): seq<nat> {
    if s == [] then [] else Insert(s[0], SortDescending(s[1..]))
  }

  lemma {:induction false} InsertKeeps(x: nat, s: seq<nat>)
    ensures multiset(Insert(x, s)) == multiset(s) + multiset{x}
  {
    if s != [] && x < s[0] {
      InsertKeeps(x, s[1..]);
      assert s == [s[0]] + s[1..];
    }
  }

  lemma {:induction false} InsertOk(x: nat, s: seq<nat>)
    requires Descending(s)
    ensures Descending(Insert(x, s))
  {
    if s != [] && x < s[0] {
      var t := Insert(x, s[1..]);
      InsertOk(x, s[1..]);
      InsertKeeps(x, s[1..]);
      forall k | 0 <= k < |t| ensures t[k] <= s[0] {
        assert t[k] in multiset(t);
      }
    }
  }

  lemma {:induction false} SortOk(s: seq<nat>)
    ensures Descending(SortDescending(s)) && multiset(SortDescending(s)) == multiset(s)
  {
    if s != [] {
      SortOk(s[1..]);
      InsertOk(s[0], SortDescending(s[1..]));
      InsertKeeps(s[0], SortDescending(s[1..]));
      assert s == [s[0]] + s[1..];
    }
  }

  lemma SortLength(s: seq<nat>)
    ensures |SortDescending(s)| == |s|
  {
    SortOk(s);
    assert |multiset(SortDescending(s))| == |multiset(s)|;
  }

  /** The k-th largest element, counting from one. */
  ghost function KthLargest(s: seq<nat>, k: nat): nat
    requires 1 <= k <= |s|
  {
    SortLength(s);
    SortDescending(s)[k - 1]
  }

  // ---- Counting

  function CountAtLeast(s: seq<nat>, n: nat): nat {
    if s == [] then 0 else (if s[0] >= n then 1 else 0) + CountAtLeast(s[1..], n)
  }

  lemma {:induction false} CountInsert(x: nat, s: seq<nat>, n: nat)
    ensures CountAtLeast(Insert(x, s), n) == CountAtLeast(s, n) + if x >= n then 1 else 0
  {
    if s == [] || x >= s[0] {
      assert ([x] + s)[1..] == s;
    } else {
      CountInsert(x, s[1..], n);
      assert ([s[0]] + Insert(x, s[1..]))[1..] == Insert(x, s[1..]);
    }
  }

  lemma {:induction false} CountSort(s: seq<nat>, n: nat)
    ensures CountAtLeast(SortDescending(s), n) == CountAtLeast(s, n)
  {
    if s != [] {
      CountSort(s[1..], n);
      CountInsert(s[0], SortDescending(s[1..]), n);
    }
  }

  lemma {:induction false} CountDescending(s: seq<nat>, k: nat, n: nat)
    requires Descending(s) && 1 <= k <= |s|
    ensures CountAtLeast(s, n) >= k <==> s[k - 1] >= n
  {
    if s[0] < n {
      NoneAtLeast(s, n);
    } else if k > 1 {
      CountDescending(s[1..], k - 1, n);
    }
  }

  lemma {:induction false} NoneAtLeast(s: seq<nat>, n: nat)
    requires forall k :: 0 <= k < |s| ==> s[k] < n
    ensures CountAtLeast(s, n) == 0
  {
    if s != [] {
      NoneAtLeast(s[1..], n);
    }
  }

  lemma CountIsRank(s: seq<nat>, k: nat, n: nat)
    requires 1 <= k <= |s|
    ensures CountAtLeast(s, n) >= k <==> KthLargest(s, k) >= n
  {
    SortOk(s);
    SortLength(s);
    CountSort(s, n);
    CountDescending(SortDescending(s), k, n);
  }

  // ---- The scan

  /** How far the leader and each of its peers have got, by the leader's books. */
  function Progress(r: RaftState): seq<nat> {
    seq(|r.peers|, k requires 0 <= k < |r.peers| => Get(r.matchIndex, r.peers[k])) + [LastLogIndex(r.log)]
  }

  function Matches(peers: seq<Id>, matchIndex: map<Id, nat>): seq<nat> {
    seq(|peers|, k requires 0 <= k < |peers| => Get(matchIndex, peers[k]))
  }

  lemma {:induction false} CountAppend(s: seq<nat>, x: nat, n: nat)
    ensures CountAtLeast(s + [x], n) == CountAtLeast(s, n) + if x >= n then 1 else 0
  {
    if s != [] {
      CountAppend(s[1..], x, n);
      assert (s + [x])[1..] == s[1..] + [x];
    }
  }

  lemma {:induction false} CountMatchesIsCount(peers: seq<Id>, matchIndex: map<Id, nat>, n: nat)
    ensures CountMatches(peers, matchIndex, n) == CountAtLeast(Matches(peers, matchIndex), n)
  {
    if peers != [] {
      var init, p := peers[..|peers| - 1], peers[|peers| - 1];
      CountMatchesIsCount(init, matchIndex, n);
      CountAppend(Matches(init, matchIndex), Get(matchIndex, p), n);
      assert Matches(peers, matchIndex) == Matches(init, matchIndex) + [Get(matchIndex, p)];
    }
  }

  /** The scan ends at the highest committable index above where it began. */
  lemma {:induction false} ScanHighest(s: RaftState, n: nat, best: nat, k: nat)
    requires best < n <= k <= LastLogIndex(s.log) && Committable(s, k)
    ensures ScanCommit(s, n, best) >= k
    decreases LastLogIndex(s.log) + 1 - n
  {
    if n < k {
      ScanHighest(s, n + 1, if Committable(s, n) then n else best, k);
    } else {
      Frames.ScanRises(s, n + 1, n);
    }
  }

  /** What a leader's commit scan relies on. */
  ghost predicate ScanReady(r: RaftState) {
    && Numbered(r.log)
    && Ascending(r.log)
    && (forall k :: 0 <= k < |r.log| ==> r.log[k].term <= r.currentTerm)
    && r.currentTerm > 0
    && (forall p :: p in r.peers ==> Get(r.matchIndex, p) <= LastLogIndex(r.log))
  }

  lemma CommittableMeans(r: RaftState, n: nat)
    requires ScanReady(r) && 0 < n <= LastLogIndex(r.log)
    ensures Committable(r, n) <==> r.log[n].term == r.currentTerm && n <= KthLargest(Progress(r), QuorumSize(r))
  {
    CountMatchesIsCount(r.peers, r.matchIndex, n);
    CountAppend(Matches(r.peers, r.matchIndex), LastLogIndex(r.log), n);
    assert Progress(r) == Matches(r.peers, r.matchIndex) + [LastLogIndex(r.log)];
    CountIsRank(Progress(r), QuorumSize(r), n);
  }

  lemma RankInLog(r: RaftState)
    requires ScanReady(r)
    ensures KthLargest(Progress(r), QuorumSize(r)) <= LastLogIndex(r.log) == |r.log| - 1
  {
    var s := Progress(r);
    var k := KthLargest(s, QuorumSize(r));
    SortOk(s);
    SortLength(s);
    assert k in SortDescending(s);
    assert k in multiset(SortDescending(s));
    assert k in s;
  }

  /**
   The commit index after the scan is the quorum-th largest of the leader's last index and its peers'
   matchIndex, if that is an advance and holds an entry of the leader's own term; otherwise it stays.
   */
  lemma ScanIsOrderStatistic(r: RaftState)
    requires ScanReady(r)
    ensures var k := KthLargest(Progress(r), QuorumSize(r));
            MaybeAdvanceCommit(r).commitIndex ==
              if k > r.commitIndex && LogTerm(r.log, k) == r.currentTerm then k else r.commitIndex
  {
    var k := KthLargest(Progress(r), QuorumSize(r));
    var c := MaybeAdvanceCommit(r).commitIndex;
    RankInLog(r);
    ScanFinds(r, r.commitIndex + 1, r.commitIndex);
    if c != r.commitIndex {
      CommittableMeans(r, c);
      assert r.log[c].term <= r.log[k].term;
    }
    if k > r.commitIndex && r.log[k].term == r.currentTerm {
      CommittableMeans(r, k);
      ScanHighest(r, r.commitIndex + 1, r.commitIndex, k);
    }
  }

  lemma ReadyOnReply(members: set<Id>, h: History, i: Id, r: RaftState, m: Message)
    requires LeaderLogsOk(h.elections) && AcksOk(h) && ConfigOk(members, i, r) && LogOk(h, r) && LeaderOk(members, h, i, r)
    requires r.role == Leader && m.AppendEntriesResp? && MessageOk(members, h, m) && !m.reject && m.term == r.currentTerm
    ensures ScanReady(NoteSuccess(r, m))
  {
    var b := NoteSuccess(r, m);
    LeaderTermsPositive(h.elections, r.currentTerm);
    RootedNumbered(h.elections, r.log);
    RootedAscending(h.elections, r.log);
    forall p | p in b.peers ensures Get(b.matchIndex, p) <= LastLogIndex(b.log) {
      assert p in Elements(r.peers);
    }
  }

  lemma ReadyAt(decode: Decoder, run: seq<State>, k: nat, m: Message)
    requires Run(decode, run) && At(run, k, m.to) && m in run[k].net
    requires m.AppendEntriesResp? && !m.reject
    requires RaftOf(run, k, m.to).role == Leader && RaftOf(run, k, m.to).currentTerm == m.term
    ensures ScanReady(NoteSuccess(RaftOf(run, k, m.to), m)) && m.index > 0 && m.from in RaftOf(run, k, m.to).peers
  {
    var hs := RunGood(decode, run);
    var r := RaftOf(run, k, m.to);
    NodeAt(decode, run, hs, k, m.to);
    MessageAt(decode, run, hs, k, m);
    ReadyOnReply(run[0].nodes.Keys, hs[k], m.to, r, m);
    assert m.from in Elements(r.peers);
  }

  lemma ScanOnReply(r: RaftState, m: Message)
    requires m.AppendEntriesResp? && !m.reject && m.index > 0 && m.from in r.peers
    requires r.role == Leader && m.term == r.currentTerm && ScanReady(NoteSuccess(r, m))
    ensures var books := Progress(NoteSuccess(r, m));
            var n := KthLargest(books, QuorumSize(r));
            && m.index in books
            && HandleAppendEntriesResp(r, m).commitIndex ==
                 if n > r.commitIndex && LogTerm(r.log, n) == r.currentTerm then n else r.commitIndex
  {
    var b := NoteSuccess(r, m);
    var c := b.(heartbeatAcked := b.heartbeatAcked + 1);
    assert Progress(c) == Progress(b);
    ScanIsOrderStatistic(c);
    var q :| 0 <= q < |r.peers| && r.peers[q] == m.from;
    assert Progress(b)[q] == m.index;
  }

  /**
   In a run without restarts, a leader that takes a success reply ends with the larger of its commit index and
   the quorum-th largest index in its books, the latter only if that entry is of its own term.
   */
  lemma CommitOnReply(decode: Decoder, run: seq<State>, k: nat, m: Message)
    requires Run(decode, run) && At(run, k, m.to) && m in run[k].net
    requires m.AppendEntriesResp? && !m.reject
    requires RaftOf(run, k, m.to).role == Leader && RaftOf(run, k, m.to).currentTerm == m.term
    ensures var r := RaftOf(run, k, m.to);
            var books := Progress(NoteSuccess(r, m));
            var n := KthLargest(books, QuorumSize(r));
            && m.index in books
            && HandleAppendEntriesResp(r, m).commitIndex ==
                 if n > r.commitIndex && LogTerm(r.log, n) == r.currentTerm then n else r.commitIndex
  {
    ReadyAt(decode, run, k, m);
    ScanOnReply(RaftOf(run, k, m.to), m);
  }
}
