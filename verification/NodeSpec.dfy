/**
 A node around its Raft state machine: the key-value store, the stored term and vote, and the proposals that
 wait for their entry to be applied. Every critical section of the node is one function here.
 */
module NodeSpec {
  import opened Types
  import opened RaftSpec
  import opened Kv

  /** What can happen to a node: a tick of its clock, a client's proposal, the arrival of a message. */
  datatype Input = Timer | Client(data: Bytes) | Receive(m: Message)

  function Advance(r: RaftState, input: Input, draw: nat): RaftState {
    match input
    case Timer => Tick(r, draw)
    case Client(data) => Propose(r, data).0
    case Receive(m) => Step(r, m, draw)
  }

  /** The pair a node saves before anything it says can be heard. */
  datatype HardState = HardState(term: nat, vote: Id)

  datatype NodeState = NodeState(
    raft: RaftState,
    kv: Table,
    stored: HardState,
    pending: map<nat, nat>,    // log index of a waiting proposal, and its ticket
    tickets: nat,              // tickets handed out so far
    closed: seq<nat>,          // tickets signalled, in order
    applied: seq<Entry>        // entries handed to the store, in order
  )

  function NewNode(raft: RaftState, stored: HardState): NodeState {
    NodeState(raft, map[], stored, map[], 0, [], [])
  }

  // ---- Applying

  function ApplyEntry(decode: Decoder, n: NodeState, e: Entry): NodeState {
    var n := n.(kv := AppliedEntry(decode, n.kv, e), applied := n.applied + [e]);
    if e.index in n.pending
    then n.(closed := n.closed + [n.pending[e.index]], pending := n.pending - {e.index})
    else n
  }

  function ApplyEntries(decode: Decoder, n: NodeState, entries: seq<Entry>): NodeState {
    if entries == [] then n
    else ApplyEntry(decode, ApplyEntries(decode, n, entries[..|entries| - 1]), entries[|entries| - 1])
  }

  function ApplyCommitted(decode: Decoder, n: NodeState): NodeState {
    var (r, entries) := ApplicableEntries(n.raft);
    ApplyEntries(decode, n.(raft := r), entries)
  }

  // ---- Saving and sending

  function Persist(n: NodeState): NodeState {
    n.(stored := HardState(n.raft.currentTerm, n.raft.votedFor))
  }

  function Register(n: NodeState, index: nat): NodeState {
    n.(pending := n.pending[index := n.tickets], tickets := n.tickets + 1)
  }

  /** Votes are counted without looking for newly committed entries. */
  predicate Applies(input: Input) {
    match input
    case Timer => true
    case Client(_) => false
    case Receive(m) => m.AppendEntries? || m.AppendEntriesResp?
  }

  /** The rest of a critical section once Raft has moved: apply or register, save, take the output buffer. */
  function Finish(decode: Decoder, a: NodeState, input: Input): (NodeState, seq<Message>) {
    var b := if Applies(input) then ApplyCommitted(decode, a)
             else if input.Client? then Register(a, LastLogIndex(a.raft.log))
             else a;
    var c := Persist(b);
    (c.(raft := c.raft.(msgs := [])), c.raft.msgs)
  }

  /** A critical section: the state it leaves and the messages it takes from the output buffer. */
  function Region(decode: Decoder, n: NodeState, input: Input, draw: nat): (NodeState, seq<Message>) {
    if input.Client? && n.raft.role != Leader then (n, [])
    else Finish(decode, n.(raft := Advance(n.raft, input, draw)), input)
  }

  /** Requests are routed to their peer; a reply goes back to whoever asked; anything else is dropped. */
  predicate Leaves(input: Input, m: Message) {
    || m.AppendEntries? || m.RequestVote?
    || (input.Receive? && m.to == input.m.from &&
        ((input.m.AppendEntries? && m.AppendEntriesResp?) || (input.m.RequestVote? && m.RequestVoteResp?)))
  }

  /** A restarted node has its saved term and vote, and nothing else: the log is never saved. */
  function Restarted(n: NodeState, draw: nat): NodeState {
    NewNode(NewRaft(n.raft.id, n.raft.peers, n.raft.baseElectionTimeout, n.raft.heartbeatTimeout,
                    n.stored.term, n.stored.vote, [], draw),
            n.stored)
  }
}
