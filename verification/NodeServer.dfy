/** The node as it runs: one method per critical section, over its Raft machine, key-value store and database. */
module NodeServer {
  import opened Types
  import opened RaftSpec
  import opened Kv
  import opened NodeSpec
  import opened Pairing
  import opened Storage
  import opened RaftNode

  /** A message on its way out, with the pair in the database and the pair in memory at that moment. */
  datatype Said = Said(m: Message, saved: HardState, held: HardState)

  ghost function Says(saved: HardState, held: HardState, msgs: seq<Message>): seq<Said> {
    seq(|msgs|, k requires 0 <= k < |msgs| => Said(msgs[k], saved, held))
  }

  /** The last message of a buffer that answers a request. */
  function LastAnswer(request: Message, msgs: seq<Message>): Option<Message> {
    if msgs == [] then None
    else if Answers(request, msgs[|msgs| - 1]) then Some(msgs[|msgs| - 1])
    else LastAnswer(request, msgs[..|msgs| - 1])
  }

  class Node {
    const decode: Decoder
    const raft: Raft
    const fsm: KV
    const store: Store
    ghost const saved: Database

    var proposals: map<nat, nat>
    var tickets: nat
    var closed: seq<nat>
    ghost var applied: seq<Entry>
    ghost var sent: seq<Said>

    ghost function Stored(): HardState
      reads store
    {
      HardState(SavedTerm(store.db), SavedVote(store.codec, store.db))
    }

    ghost function View(): NodeState
      reads this, raft, fsm, store
    {
      NodeState(raft.View(), fsm.data, Stored(), proposals, tickets, closed, applied)
    }

    /** Between critical sections the output buffer is empty; the database never gains a log entry. */
    ghost predicate Valid()
      reads this, raft, fsm, store
    {
      raft.Valid() && raft.msgs == [] && Lossless(store.codec) && LogPart(store.db) == saved
    }

    /** The term after the call still fits in the database's 64 bits. */
    ghost predicate Fits(input: Input, draw: nat)
      reads raft
    {
      Advance(raft.View(), input, draw).currentTerm <= MAX_UINT64
    }

    constructor (decode: Decoder, store: Store, raft: Raft)
      requires Lossless(store.codec) && raft.Valid() && raft.msgs == []
      ensures Valid() && this.decode == decode && this.store == store && this.raft == raft && fresh(fsm)
      ensures saved == LogPart(store.db) && sent == []
      ensures View() == NewNode(raft.View(), Stored())
    {
      this.decode := decode;
      this.store := store;
      this.raft := raft;
      fsm := new KV();
      saved := LogPart(store.db);
      proposals, tickets, closed := map[], 0, [];
      applied, sent := [], [];
    }

    // ---- Parts of a critical section

    method ApplyOne(e: Entry)
      modifies fsm, this`proposals, this`closed, this`applied
      ensures View() == ApplyEntry(decode, old(View()), e)
    {
      if e.kind == Command && |e.data| > 0 {
        var _ := fsm.Apply(decode, e.data);
      }
      applied := applied + [e];
      if e.index in proposals {
        closed := closed + [proposals[e.index]];
        proposals := proposals - {e.index};
      }
    }

    method ApplyCommitted()
      requires raft.Valid()
      modifies raft`lastApplied, fsm, this`proposals, this`closed, this`applied
      ensures View() == NodeSpec.ApplyCommitted(decode, old(View()))
    {
      ghost var start := View();
      var entries := raft.TakeApplicable();
      ghost var taken := start.(raft := raft.View());
      assert View() == ApplyEntries(decode, taken, entries[..0]);
      for k := 0 to |entries|
        invariant raft.View() == taken.raft
        invariant View() == ApplyEntries(decode, taken, entries[..k])
      {
        ApplyOne(entries[k]);
        assert entries[..k + 1][..k] == entries[..k];
      }
      assert entries[..|entries|] == entries;
    }

    method PersistState()
      requires Lossless(store.codec) && raft.currentTerm <= MAX_UINT64 && LogPart(store.db) == saved
      modifies store
      ensures View() == Persist(old(View())) && LogPart(store.db) == saved
    {
      store.SaveState(raft.currentTerm, raft.votedFor);
    }

    /** Sends requests to their peers. There is no route for a message of any other kind. */
    method Route(m: Message)
      modifies this`sent
      ensures m.AppendEntries? || m.RequestVote? ==> sent == old(sent) + Says(Stored(), Held(), [m])
      ensures !(m.AppendEntries? || m.RequestVote?) ==> sent == old(sent)
    {
      if m.AppendEntries? || m.RequestVote? {
        sent := sent + [Said(m, Stored(), Held())];
      }
    }

    ghost function Held(): HardState
      reads raft
    {
      HardState(raft.currentTerm, raft.votedFor)
    }

    method DispatchMessages()
      requires OnlyRequests(raft.msgs)
      modifies raft`msgs, this`sent
      ensures raft.View() == old(raft.View()).(msgs := [])
      ensures sent == old(sent) + Says(Stored(), Held(), old(raft.msgs))
    {
      var msgs := raft.TakeMessages();
      for k := 0 to |msgs|
        invariant raft.View() == old(raft.View()).(msgs := [])
        invariant sent == old(sent) + Says(Stored(), Held(), msgs[..k])
      {
        assert msgs[k] in msgs;
        Route(msgs[k]);
        assert Says(Stored(), Held(), msgs[..k + 1]) == Says(Stored(), Held(), msgs[..k]) + Says(Stored(), Held(), [msgs[k]]);
      }
      assert msgs[..|msgs|] == msgs;
    }

    /** Saves first and sends afterwards. */
    method SaveAndSend()
      requires raft.Valid() && OnlyRequests(raft.msgs) && raft.currentTerm <= MAX_UINT64
      requires Lossless(store.codec) && LogPart(store.db) == saved
      modifies store, raft`msgs, this`sent
      ensures Valid()
      ensures View() == Persist(old(View())).(raft := old(raft.View()).(msgs := []))
      ensures sent == old(sent) + Says(Stored(), Stored(), old(raft.msgs))
    {
      PersistState();
      DispatchMessages();
    }

    /** What follows Raft's own move where newly committed entries are looked for. */
    method ApplySaveSend(ghost input: Input)
      requires raft.Valid() && OnlyRequests(raft.msgs) && raft.currentTerm <= MAX_UINT64 && Applies(input)
      requires Lossless(store.codec) && LogPart(store.db) == saved
      modifies this, raft, fsm, store
      ensures Valid()
      ensures View() == Finish(decode, old(View()), input).0
      ensures sent == old(sent) + Says(Stored(), Stored(), Finish(decode, old(View()), input).1)
    {
      ApplyCommitted();
      SaveAndSend();
    }

    // ---- Critical sections

    method OnTick(draw: nat)
      requires Valid() && Fits(Timer, draw)
      modifies this, raft, fsm, store
      ensures Valid()
      ensures View() == Region(decode, old(View()), Timer, draw).0
      ensures sent == old(sent) + Says(Stored(), Stored(), Region(decode, old(View()), Timer, draw).1)
    {
      TickRequests(raft.View(), draw);
      raft.Tick(draw);
      ApplySaveSend(Timer);
    }

    /** A follower redirects; a leader hands out a ticket that is signalled once the entry is applied. */
    method HandlePropose(data: Bytes) returns (ticket: Option<nat>)
      requires Valid() && Fits(Client(data), 0)
      modifies this, raft, fsm, store
      ensures Valid()
      ensures View() == Region(decode, old(View()), Client(data), 0).0
      ensures sent == old(sent) + Says(Stored(), Stored(), Region(decode, old(View()), Client(data), 0).1)
      ensures ticket == if old(raft.role) == Leader then Some(old(tickets)) else None
    {
      if raft.role != Leader {
        return None;
      }
      ProposeRequests(raft.View(), data);
      var index := raft.Propose(data);
      if index.None? {
        return None;
      }
      proposals := proposals[index.value := tickets];
      ticket := Some(tickets);
      tickets := tickets + 1;
      SaveAndSend();
    }

    method OnAppendResponse(m: Message, draw: nat)
      requires Valid() && m.AppendEntriesResp? && Fits(Receive(m), draw)
      modifies this, raft, fsm, store
      ensures Valid()
      ensures View() == Region(decode, old(View()), Receive(m), draw).0
      ensures sent == old(sent) + Says(Stored(), Stored(), Region(decode, old(View()), Receive(m), draw).1)
    {
      ReplyMakesRequests(raft.View(), m, draw);
      raft.Step(m, draw);
      ApplySaveSend(Receive(m));
    }

    /** Votes are counted without looking for newly committed entries. */
    method OnVoteResponse(m: Message, draw: nat)
      requires Valid() && m.RequestVoteResp? && Fits(Receive(m), draw)
      modifies this, raft, fsm, store
      ensures Valid()
      ensures View() == Region(decode, old(View()), Receive(m), draw).0
      ensures sent == old(sent) + Says(Stored(), Stored(), Region(decode, old(View()), Receive(m), draw).1)
    {
      ReplyMakesRequests(raft.View(), m, draw);
      raft.Step(m, draw);
      SaveAndSend();
    }

    /** Takes the buffer apart: the answer to the request is returned, requests are sent. */
    method Extract(request: Message) returns (resp: Option<Message>)
      requires forall m :: m in raft.msgs ==> Answers(request, m) || m.AppendEntries? || m.RequestVote?
      modifies raft`msgs, this`sent
      ensures raft.View() == old(raft.View()).(msgs := [])
      ensures resp == LastAnswer(request, old(raft.msgs)) && sent == old(sent) + Says(Stored(), Held(), old(raft.msgs))
    {
      resp := None;
      var msgs := raft.TakeMessages();
      for k := 0 to |msgs|
        invariant raft.View() == old(raft.View()).(msgs := [])
        invariant resp == LastAnswer(request, msgs[..k]) && sent == old(sent) + Says(Stored(), Held(), msgs[..k])
      {
        assert msgs[k] in msgs && msgs[..k + 1][..k] == msgs[..k];
        if Answers(request, msgs[k]) {
          resp := Some(msgs[k]);
          sent := sent + [Said(msgs[k], Stored(), Held())];
        } else {
          Route(msgs[k]);
        }
        assert Says(Stored(), Held(), msgs[..k + 1]) == Says(Stored(), Held(), msgs[..k]) + Says(Stored(), Held(), [msgs[k]]);
      }
      assert msgs[..|msgs|] == msgs;
    }

    /** Saves first and answers afterwards. */
    method SaveAndAnswer(request: Message) returns (resp: Option<Message>)
      requires raft.Valid() && |raft.msgs| == 1 && Answers(request, raft.msgs[0]) && raft.currentTerm <= MAX_UINT64
      requires Lossless(store.codec) && LogPart(store.db) == saved
      modifies store, raft`msgs, this`sent
      ensures Valid()
      ensures View() == Persist(old(View())).(raft := old(raft.View()).(msgs := []))
      ensures resp == Some(old(raft.msgs[0])) && sent == old(sent) + Says(Stored(), Stored(), [resp.value])
    {
      assert raft.msgs == [raft.msgs[0]];
      PersistState();
      resp := Extract(request);
    }

    /** The reply to its own request comes back, after the saving; the handler never ends without one. */
    method HandleAppendEntries(m: Message, draw: nat) returns (resp: Option<Message>)
      requires Valid() && m.AppendEntries? && Fits(Receive(m), draw)
      modifies this, raft, fsm, store
      ensures Valid()
      ensures View() == Region(decode, old(View()), Receive(m), draw).0
      ensures resp.Some? && Answers(m, resp.value) && Region(decode, old(View()), Receive(m), draw).1 == [resp.value]
      ensures sent == old(sent) + Says(Stored(), Stored(), [resp.value])
    {
      RequestsAnsweredOnce(raft.View(), m, draw);
      raft.Step(m, draw);
      ApplyCommitted();
      resp := SaveAndAnswer(m);
    }

    method HandleRequestVote(m: Message, draw: nat) returns (resp: Option<Message>)
      requires Valid() && m.RequestVote? && Fits(Receive(m), draw)
      modifies this, raft, fsm, store
      ensures Valid()
      ensures View() == Region(decode, old(View()), Receive(m), draw).0
      ensures resp.Some? && Answers(m, resp.value) && Region(decode, old(View()), Receive(m), draw).1 == [resp.value]
      ensures sent == old(sent) + Says(Stored(), Stored(), [resp.value])
    {
      RequestsAnsweredOnce(raft.View(), m, draw);
      raft.Step(m, draw);
      resp := SaveAndAnswer(m);
    }
  }

  /**
   Opens a node on its database, with the saved pair and the entries in key order. It fails exactly when some
   log entry of the database does not decode.
   */
  method Open(decode: Decoder, store: Store, id: Id, peers: seq<Id>, base: nat, heartbeat: nat, draw: nat)
    returns (n: Option<Node>, entries: seq<Entry>)
    requires Lossless(store.codec)
    ensures Loaded(store.codec, store.db, entries, n.Some?)
    ensures n.None? <==> exists k :: Garbled(store.codec, store.db, k)
    ensures n.Some? ==>
              && n.value.Valid() && fresh(n.value) && n.value.store == store && n.value.saved == LogPart(store.db)
              && n.value.View() == NewNode(NewRaft(id, peers, base, heartbeat, n.value.Stored().term, n.value.Stored().vote,
                                                   entries, draw), n.value.Stored())
              && n.value.raft.log == [SENTINEL] + entries && n.value.raft.role == Follower
              && n.value.raft.currentTerm == SavedTerm(store.db) && n.value.raft.votedFor == SavedVote(store.codec, store.db)
              && n.value.raft.commitIndex == n.value.raft.lastApplied == 0 && n.value.raft.leaderId == NONE
              && n.value.raft.electionElapsed == 0 && n.value.raft.electionTimeout == base + draw && !n.value.raft.leaderActive
              && n.value.raft.id == id && n.value.raft.peers == peers && n.value.fsm.data == map[] && n.value.proposals == map[]
  {
    var term, vote := store.LoadState();
    var ok;
    entries, ok := store.LoadLog();
    if !ok {
      return None, entries;
    }
    var raft := new Raft(id, peers, base, heartbeat, term, vote, entries, draw);
    var node := new Node(decode, store, raft);
    n := Some(node);
  }

  /** Opening the database of a node again, to which no node ever writes a log, gives the restarted node. */
  method Reopen(n: Node, draw: nat) returns (n': Option<Node>)
    requires n.Valid() && n.saved == map[]
    ensures n'.Some? && n'.value.Valid() && fresh(n'.value) && n'.value.View() == Restarted(n.View(), draw)
  {
    var entries;
    n', entries := Open(n.decode, n.store, n.raft.id, n.raft.peers, n.raft.baseElectionTimeout, n.raft.heartbeatTimeout, draw);
    assert LogKeys(n.store.db) == LogPart(n.store.db).Keys == {};
    HeldIsLoaded(n.store.codec, n.store.db, [], entries, n'.Some?);
  }
}
