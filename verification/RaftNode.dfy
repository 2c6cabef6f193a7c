/** The Raft state machine as the node runs it: fields updated in place, call by call. */
module RaftNode {
  import opened Types
  import opened RaftSpec

  class Raft {
    const id: Id
    const peers: seq<Id>
    const heartbeatTimeout: nat
    const baseElectionTimeout: nat

    var currentTerm: nat
    var votedFor: Id
    var log: Log
    var commitIndex: nat
    var lastApplied: nat
    var nextIndex: map<Id, nat>
    var matchIndex: map<Id, nat>
    var role: Role
    var leaderId: Id
    var leaderActive: bool
    var electionElapsed: nat
    var heartbeatElapsed: nat
    var electionTimeout: nat
    var heartbeatAcked: nat
    var votes: map<Id, bool>
    var preVotes: map<Id, bool>
    var msgs: seq<Message>

    ghost function View(): RaftState
      reads this
    {
      RaftState(id, peers, currentTerm, votedFor, log, commitIndex, lastApplied, nextIndex, matchIndex, role, leaderId,
                leaderActive, electionElapsed, heartbeatElapsed, electionTimeout, heartbeatTimeout, baseElectionTimeout,
                heartbeatAcked, votes, preVotes, msgs)
    }

    /** The log never loses its sentinel. */
    ghost predicate Valid()
      reads this
    {
      |log| > 0
    }

    constructor (id: Id, peers: seq<Id>, base: nat, heartbeat: nat, term: nat, vote: Id, saved: seq<Entry>, draw: nat)
      ensures Valid() && View() == NewRaft(id, peers, base, heartbeat, term, vote, saved, draw)
    {
      this.id := id;
      this.peers := peers;
      this.heartbeatTimeout := heartbeat;
      this.baseElectionTimeout := base;
      currentTerm := term;
      votedFor := vote;
      log := [SENTINEL] + saved;
      commitIndex, lastApplied := 0, 0;
      nextIndex, matchIndex := map[], map[];
      role, leaderId, leaderActive := Follower, NONE, false;
      electionElapsed, heartbeatElapsed := 0, 0;
      electionTimeout := base + draw;
      heartbeatAcked := 0;
      votes, preVotes, msgs := map[], map[], [];
    }

    // ---- Reading the log

    method LastIndex() returns (index: nat)
      requires Valid()
      ensures index == LastLogIndex(log)
    {
      index := log[|log| - 1].index;
    }

    method TermAt(index: nat) returns (term: nat)
      ensures term == LogTerm(log, index)
    {
      if index >= |log| {
        return 0;
      }
      term := log[index].term;
    }

    method UpToDate(lastIndex: nat, lastTerm: nat) returns (ok: bool)
      requires Valid()
      ensures ok == IsLogUpToDate(log, lastIndex, lastTerm)
    {
      var ourIndex := LastIndex();
      var ourTerm := log[|log| - 1].term;
      if lastTerm != ourTerm {
        return lastTerm > ourTerm;
      }
      return lastIndex >= ourIndex;
    }

    /** Counts the ayes among recorded votes. */
    method CountGranted(ballots: map<Id, bool>) returns (granted: nat)
      ensures granted == |Granted(ballots)|
    {
      granted := 0;
      var rest := ballots.Keys;
      assert Granted(ballots) * rest == Granted(ballots);
      while rest != {}
        invariant rest <= ballots.Keys
        invariant granted + |Granted(ballots) * rest| == |Granted(ballots)|
        decreases |rest|
      {
        var v :| v in rest;
        var yes := Granted(ballots) * rest;
        if ballots[v] {
          granted := granted + 1;
          assert yes == Granted(ballots) * (rest - {v}) + {v};
        } else {
          assert yes == Granted(ballots) * (rest - {v});
        }
        rest := rest - {v};
      }
      assert Granted(ballots) * {} == {};
    }

    // ---- Sending

    method SendRequests()
      requires Valid()
      modifies this`msgs
      ensures View() == BroadcastRequestVote(old(View()))
    {
      var lastIndex := LastIndex();
      var lastTerm := log[|log| - 1].term;
      ghost var was := View();
      for k := 0 to |peers|
        invariant View() == was.(msgs := was.msgs + seq(k, j requires 0 <= j < k => VoteRequestFor(was, peers[j])))
      {
        msgs := msgs + [RequestVote(id, peers[k], currentTerm, lastIndex, lastTerm, false)];
        assert msgs == was.msgs + seq(k + 1, j requires 0 <= j < k + 1 => VoteRequestFor(was, peers[j]));
      }
    }

    /** A deep copy of the log from an index on. With positions and indices in step, the second test is idle. */
    method CopyFrom(next: nat) returns (entries: seq<Entry>)
      requires Valid()
      ensures entries == Suffix(log, next)
    {
      entries := [];
      var last := LastIndex();
      if next <= last && next <= |log| {
        for k := next to |log|
          invariant entries == log[next..k]
        {
          entries := entries + [log[k]];
        }
      }
    }

    method SendHeartbeat(peer: Id)
      requires Valid()
      modifies this`msgs
      ensures View() == old(View()).(msgs := old(msgs) + [HeartbeatFor(old(View()), peer)])
    {
      var next := Get(nextIndex, peer);
      var prevTerm := TermAt(Pred(next));
      var entries := CopyFrom(next);
      msgs := msgs + [AppendEntries(id, peer, currentTerm, Pred(next), prevTerm, entries, commitIndex)];
    }

    method SendHeartbeats()
      requires Valid()
      modifies this`msgs
      ensures View() == BroadcastHeartbeat(old(View()))
    {
      ghost var was := View();
      for k := 0 to |peers|
        invariant View() == was.(msgs := was.msgs + seq(k, j requires 0 <= j < k => HeartbeatFor(was, peers[j])))
      {
        SendHeartbeat(peers[k]);
        assert msgs == was.msgs + seq(k + 1, j requires 0 <= j < k + 1 => HeartbeatFor(was, peers[j]));
      }
    }

    // ---- Role changes

    /** Sets the election clock to zero and draws a new timeout. */
    method ResetElectionTimer(draw: nat)
      modifies this`electionElapsed, this`electionTimeout
      ensures View() == old(View()).(electionElapsed := 0, electionTimeout := baseElectionTimeout + draw)
    {
      electionElapsed := 0;
      electionTimeout := baseElectionTimeout + draw;
    }

    method NoteLeader(leader: Id)
      modifies this`leaderId, this`leaderActive
      ensures View() == old(View()).(leaderId := leader, leaderActive := leader != NONE)
    {
      leaderId := leader;
      leaderActive := leader != NONE;
    }

    method EnterTerm(newRole: Role, term: nat, vote: Id)
      modifies this`role, this`currentTerm, this`votedFor
      ensures View() == old(View()).(role := newRole, currentTerm := term, votedFor := vote)
    {
      role := newRole;
      currentTerm := term;
      votedFor := vote;
    }

    method ToFollower(term: nat, leader: Id, draw: nat)
      requires Valid()
      modifies this
      ensures Valid() && View() == BecomeFollower(old(View()), term, leader, draw)
    {
      EnterTerm(Follower, term, NONE);
      NoteLeader(leader);
      ResetElectionTimer(draw);
    }

    /** Starts a new term with the node's own vote. */
    method Stand(draw: nat)
      requires Valid()
      modifies this
      ensures Valid() && View() == Nominate(old(View()), draw)
    {
      EnterTerm(Candidate, currentTerm + 1, id);
      leaderId := NONE;
      votes := map[id := true];
      ResetElectionTimer(draw);
    }

    method ToCandidate(draw: nat)
      requires Valid()
      modifies this
      ensures Valid() && View() == BecomeCandidate(old(View()), draw)
    {
      Stand(draw);
      var granted := CountGranted(votes);
      if granted >= (|peers| + 1) / 2 + 1 {
        ToLeader();
        return;
      }
      SendRequests();
    }

    /** Starts every peer at one past the end of the log, with nothing matched. */
    method ResetProgress(last: nat)
      modifies this`nextIndex, this`matchIndex
      ensures nextIndex == map p | p in peers :: last + 1
      ensures matchIndex == map p | p in peers :: 0
    {
      nextIndex, matchIndex := map[], map[];
      var k := 0;
      while k < |peers|
        invariant 0 <= k <= |peers|
        invariant nextIndex.Keys == Elements(peers[..k]) && forall p :: p in nextIndex ==> nextIndex[p] == last + 1
        invariant matchIndex.Keys == Elements(peers[..k]) && forall p :: p in matchIndex ==> matchIndex[p] == 0
      {
        assert Elements(peers[..k + 1]) == Elements(peers[..k]) + {peers[k]};
        nextIndex := nextIndex[peers[k] := last + 1];
        matchIndex := matchIndex[peers[k] := 0];
        k := k + 1;
      }
      assert peers[..|peers|] == peers;
    }

    /** Takes office: starts the heartbeat round and appends the no-op of the term. */
    method TakeOffice()
      requires Valid()
      modifies this
      ensures Valid() && View() == Promote(old(View()))
    {
      var last := LastIndex();
      role := Leader;
      leaderId := id;
      heartbeatElapsed := 0;
      heartbeatAcked := 1;
      ResetProgress(last);
      log := log + [Entry(last + 1, currentTerm, Command, [])];
    }

    method ToLeader()
      requires Valid()
      modifies this
      ensures Valid() && View() == BecomeLeader(old(View()))
    {
      TakeOffice();
      SendHeartbeats();
    }

    // ---- The clock

    method Tick(draw: nat)
      requires Valid()
      modifies this
      ensures Valid() && View() == RaftSpec.Tick(old(View()), draw)
    {
      if role == Leader {
        heartbeatElapsed := heartbeatElapsed + 1;
        if heartbeatElapsed >= heartbeatTimeout {
          heartbeatElapsed := 0;
          heartbeatAcked := 1;
          SendHeartbeats();
        }
      } else {
        electionElapsed := electionElapsed + 1;
        if electionElapsed >= electionTimeout {
          electionElapsed := 0;
          leaderActive := false;
          ToCandidate(draw);
        }
      }
    }

    // ---- Messages

    method Step(m: Message, draw: nat)
      requires Valid()
      modifies this
      ensures Valid() && View() == RaftSpec.Step(old(View()), m, draw)
    {
      if m.term > currentTerm {
        var isPreVote := (m.RequestVote? || m.RequestVoteResp?) && m.isPreVote;
        if !isPreVote {
          ToFollower(m.term, if m.AppendEntries? then m.from else NONE, draw);
        }
      }
      assert View() == StepDown(old(View()), m, draw);
      match m
      case RequestVote(_, _, _, _, _, _) => OnRequestVote(m);
      case RequestVoteResp(_, _, _, _, _) => OnRequestVoteResp(m, draw);
      case AppendEntries(_, _, _, _, _, _, _) => OnAppendEntries(m, draw);
      case AppendEntriesResp(_, _, _, _, _) => OnAppendEntriesResp(m);
    }

    method OnRequestVote(m: Message)
      requires Valid() && m.RequestVote?
      modifies this
      ensures Valid() && View() == HandleRequestVote(old(View()), m)
    {
      var reject, preVote := true, false;
      if leaderActive && m.term <= currentTerm {
        preVote := m.isPreVote;
      } else if m.isPreVote {
        var logOk := UpToDate(m.lastLogIndex, m.lastLogTerm);
        reject := !(m.term >= currentTerm && logOk);
        preVote := true;
      } else if m.term >= currentTerm {
        var canVote := votedFor == NONE || votedFor == m.from;
        var logOk := UpToDate(m.lastLogIndex, m.lastLogTerm);
        if canVote && logOk {
          votedFor := m.from;
          electionElapsed := 0;
          reject := false;
        }
      }
      msgs := msgs + [RequestVoteResp(id, m.from, currentTerm, reject, preVote)];
    }

    method OnRequestVoteResp(m: Message, draw: nat)
      requires Valid() && m.RequestVoteResp?
      modifies this
      ensures Valid() && View() == HandleRequestVoteResp(old(View()), m, draw)
    {
      if role != Candidate {
        return;
      }
      if m.isPreVote {
        if preVotes == map[] {
          preVotes := map[id := true];
        }
        preVotes := preVotes[m.from := !m.reject];
        var granted := CountGranted(preVotes);
        if granted >= (|peers| + 1) / 2 + 1 {
          ToCandidate(draw);
        }
        return;
      }
      if m.term != currentTerm {
        return;
      }
      votes := votes[m.from := !m.reject];
      var granted := CountGranted(votes);
      if granted >= (|peers| + 1) / 2 + 1 {
        ToLeader();
      }
    }

    /** Where a follower tells the leader to look, when the entry before an append is missing or differs. */
    method Hint(m: Message) returns (hint: nat)
      requires Valid() && m.AppendEntries? && m.prevLogIndex > 0
      ensures hint == BackoffHint(log, m)
    {
      var last := LastIndex();
      if m.prevLogIndex > last {
        return last;
      }
      var conflict := TermAt(m.prevLogIndex);
      hint := m.prevLogIndex;
      while hint > 1
        invariant 1 <= hint <= m.prevLogIndex
        invariant ConflictStart(log, hint, conflict) == ConflictStart(log, m.prevLogIndex, conflict)
        decreases hint
      {
        var term := TermAt(hint - 1);
        if term != conflict {
          break;
        }
        hint := hint - 1;
      }
      hint := hint - 1;
    }

    /**
     Merges entries that begin after prev into the log, truncating at the first conflict. With positions and
     indices in step, the truncation is never past the end.
     */
    method MergeEntries(prev: nat, entries: seq<Entry>)
      requires Valid()
      modifies this`log
      ensures Valid() && View() == old(View()).(log := Merge(old(log), prev + 1, entries))
    {
      var k := 0;
      assert entries[0..] == entries;
      while k < |entries|
        invariant 0 <= k <= |entries| && log == old(log)
        invariant Merge(log, prev + 1 + k, entries[k..]) == Merge(old(log), prev + 1, entries)
      {
        var idx := prev + k + 1;
        var last := LastIndex();
        if idx > last {
          log := log + entries[k..];
          return;
        }
        var term := TermAt(idx);
        if term != entries[k].term {
          if idx <= |log| {
            log := log[..idx];
          }
          log := log + entries[k..];
          return;
        }
        assert entries[k..][1..] == entries[k + 1..];
        k := k + 1;
      }
    }

    method OnAppendEntries(m: Message, draw: nat)
      requires Valid() && m.AppendEntries?
      modifies this
      ensures Valid() && View() == HandleAppendEntries(old(View()), m, draw)
    {
      if m.term < currentTerm {
        msgs := msgs + [AppendEntriesResp(id, m.from, currentTerm, true, 0)];
        return;
      }
      electionElapsed := 0;
      leaderId := m.from;
      leaderActive := true;
      if role != Follower {
        ToFollower(m.term, m.from, draw);
      }
      assert View() == Recognise(old(View()), m, draw);
      AnswerTo(m);
    }

    method FollowLeaderCommit(leaderCommit: nat, lastNew: nat)
      modifies this`commitIndex
      ensures View() == old(View()).(commitIndex := FollowCommit(old(commitIndex), leaderCommit, lastNew))
    {
      if leaderCommit > commitIndex {
        if leaderCommit < lastNew {
          commitIndex := leaderCommit;
        } else {
          commitIndex := lastNew;
        }
      }
    }

    method Accept(m: Message)
      requires Valid() && m.AppendEntries? && Consistent(log, m)
      modifies this
      ensures Valid() && View() == AnswerAppend(old(View()), m)
    {
      MergeEntries(m.prevLogIndex, m.entries);
      FollowLeaderCommit(m.leaderCommit, m.prevLogIndex + |m.entries|);
      var last := LastIndex();
      msgs := msgs + [AppendEntriesResp(id, m.from, currentTerm, false, last)];
    }

    method AnswerTo(m: Message)
      requires Valid() && m.AppendEntries?
      modifies this
      ensures Valid() && View() == AnswerAppend(old(View()), m)
    {
      var last := LastIndex();
      if m.prevLogIndex > 0 {
        var term := TermAt(m.prevLogIndex);
        if m.prevLogIndex > last || term != m.prevLogTerm {
          var hint := Hint(m);
          msgs := msgs + [AppendEntriesResp(id, m.from, currentTerm, true, hint)];
          return;
        }
      }
      Accept(m);
    }

    method OnAppendEntriesResp(m: Message)
      requires Valid() && m.AppendEntriesResp?
      modifies this
      ensures Valid() && View() == HandleAppendEntriesResp(old(View()), m)
    {
      if role != Leader || m.term != currentTerm {
        return;
      }
      if m.reject {
        if m.index > 0 {
          nextIndex := nextIndex[m.from := m.index + 1];
        } else if Get(nextIndex, m.from) > 1 {
          nextIndex := nextIndex[m.from := Get(nextIndex, m.from) - 1];
        }
        return;
      }
      if m.index > 0 {
        matchIndex := matchIndex[m.from := m.index];
        nextIndex := nextIndex[m.from := m.index + 1];
      }
      heartbeatAcked := heartbeatAcked + 1;
      AdvanceCommit();
    }

    // ---- Commit

    method CountAtLeast(n: nat) returns (count: nat)
      ensures count == CountMatches(peers, matchIndex, n)
    {
      count := 0;
      for k := 0 to |peers|
        invariant count == CountMatches(peers[..k], matchIndex, n)
      {
        assert peers[..k + 1][..k] == peers[..k];
        if Get(matchIndex, peers[k]) >= n {
          count := count + 1;
        }
      }
      assert peers[..|peers|] == peers;
    }

    method AdvanceCommit()
      requires Valid()
      modifies this`commitIndex
      ensures View() == MaybeAdvanceCommit(old(View()))
    {
      ghost var was := View();
      var n := commitIndex + 1;
      var last := LastIndex();
      while n <= last
        invariant ScanCommit(was, n, commitIndex) == ScanCommit(was, was.commitIndex + 1, was.commitIndex)
        decreases last + 1 - n
      {
        var term := TermAt(n);
        if term == currentTerm {
          var matches := CountAtLeast(n);
          if 1 + matches >= (|peers| + 1) / 2 + 1 {
            commitIndex := n;
          }
        }
        n := n + 1;
      }
    }

    // ---- Clients

    method Propose(data: Bytes) returns (index: Option<nat>)
      requires Valid()
      modifies this
      ensures Valid() && View() == RaftSpec.Propose(old(View()), data).0
      ensures index == RaftSpec.Propose(old(View()), data).1
    {
      if role != Leader {
        return None;
      }
      var last := LastIndex();
      log := log + [Entry(last + 1, currentTerm, Command, data)];
      matchIndex := matchIndex[id := last + 1];
      SendHeartbeats();
      return Some(last + 1);
    }

    method TakeApplicable() returns (entries: seq<Entry>)
      requires Valid()
      modifies this`lastApplied
      ensures (View(), entries) == ApplicableEntries(old(View()))
    {
      entries := [];
      if lastApplied >= commitIndex {
        return;
      }
      var end := commitIndex;
      if end >= |log| {
        end := |log| - 1;
      }
      if lastApplied >= end {
        return;
      }
      for k := lastApplied + 1 to end + 1
        invariant entries == log[lastApplied + 1..k]
      {
        entries := entries + [log[k]];
      }
      lastApplied := end;
    }

    method TakeMessages() returns (out: seq<Message>)
      modifies this`msgs
      ensures out == old(msgs) && View() == old(View()).(msgs := [])
    {
      out := msgs;
      msgs := [];
    }
  }
}
