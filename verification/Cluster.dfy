/**
 A cluster: a fixed set of nodes and every message sent so far. A message stays deliverable for ever, so it
 may be lost, duplicated, delayed and reordered. Each step is one critical section of one node.
 */
module Cluster {
  import opened Types
  import opened RaftSpec
  import opened Kv
  import opened NodeSpec

  datatype State = State(nodes: map<Id, NodeState>, net: set<Message>)

  ghost predicate Configured(ids: set<Id>, i: Id, r: RaftState) {
    && i != NONE && r.id == i
    && Distinct(r.peers) && Elements(r.peers) == ids - {i}
    && r.baseElectionTimeout > 0
  }

  /** A node with an empty store and its own configuration. */
  ghost predicate Fresh(n: NodeState) {
    exists draw: nat :: draw < n.raft.baseElectionTimeout &&
      n == NewNode(NewRaft(n.raft.id, n.raft.peers, n.raft.baseElectionTimeout, n.raft.heartbeatTimeout, 0, NONE, [], draw),
                   HardState(0, NONE))
  }

  ghost predicate Init(s: State) {
    && s.net == {}
    && forall i :: i in s.nodes ==> Configured(s.nodes.Keys, i, s.nodes[i].raft) && Fresh(s.nodes[i])
  }

  ghost predicate NodeStep(decode: Decoder, s: State, s': State, i: Id, input: Input, draw: nat) {
    && i in s.nodes && draw < s.nodes[i].raft.baseElectionTimeout
    && (input.Receive? ==> input.m in s.net && input.m.to == i)
    && var (n, outs) := Region(decode, s.nodes[i], input, draw);
       s' == State(s.nodes[i := n], s.net + set m | m in outs && Leaves(input, m))
  }

  /** No node asks for pre-votes, but anyone may send a request or a reply that belongs to one. */
  ghost predicate PreVoteArrives(s: State, s': State, m: Message) {
    && (m.RequestVote? || m.RequestVoteResp?) && m.isPreVote
    && s' == s.(net := s.net + {m})
  }

  ghost predicate Next(decode: Decoder, s: State, s': State) {
    || (exists i, input, draw :: NodeStep(decode, s, s', i, input, draw))
    || (exists m :: PreVoteArrives(s, s', m))
  }

  ghost predicate RestartStep(s: State, s': State, i: Id, draw: nat) {
    && i in s.nodes && draw < s.nodes[i].raft.baseElectionTimeout
    && s' == s.(nodes := s.nodes[i := Restarted(s.nodes[i], draw)])
  }

  ghost predicate NextOrRestart(decode: Decoder, s: State, s': State) {
    || Next(decode, s, s')
    || exists i, draw :: RestartStep(s, s', i, draw)
  }

  /** A run without restarts. */
  ghost predicate Run(decode: Decoder, run: seq<State>) {
    && |run| > 0 && Init(run[0])
    && forall k {:trigger Moves(decode, run, k)} :: 0 < k < |run| ==> Moves(decode, run, k)
  }

  ghost predicate Moves(decode: Decoder, run: seq<State>, k: int)
    requires 0 < k < |run|
  {
    Next(decode, run[k - 1], run[k])
  }

  /** A run in which any node may restart at any time. */
  ghost predicate RunWithRestarts(decode: Decoder, run: seq<State>) {
    && |run| > 0 && Init(run[0])
    && forall k {:trigger MovesOrRestarts(decode, run, k)} :: 0 < k < |run| ==> MovesOrRestarts(decode, run, k)
  }

  ghost predicate MovesOrRestarts(decode: Decoder, run: seq<State>, k: int)
    requires 0 < k < |run|
  {
    NextOrRestart(decode, run[k - 1], run[k])
  }

  ghost function RaftOf(run: seq<State>, k: nat, i: Id): RaftState
    requires k < |run| && i in run[k].nodes
  {
    run[k].nodes[i].raft
  }

  /** Index k of a run, node i of the cluster. */
  ghost predicate At(run: seq<State>, k: int, i: Id) {
    0 <= k < |run| && i in run[k].nodes
  }
}
