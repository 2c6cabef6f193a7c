/** The values that Raft peers exchange and store: log entries, messages and node roles. */
module Types {

  type Id = string
  type byte = x: nat | x < 256
  type Bytes = seq<byte>
  type Log = seq<Entry>

  /** The empty identity: no leader, no vote. */
  const NONE: Id := ""

  const MAX_UINT64: nat := 0xFFFF_FFFF_FFFF_FFFF

  datatype Option<+T> = None | Some(value: T)

  datatype EntryKind = Command | ConfigChange

  datatype Entry = Entry(index: nat, term: nat, kind: EntryKind, data: Bytes)

  /** The entry every log holds at index 0. */
  const SENTINEL: Entry := Entry(0, 0, Command, [])

  datatype Role = Follower | Candidate | Leader

  datatype Message =
    | RequestVote(from: Id, to: Id, term: nat, lastLogIndex: nat, lastLogTerm: nat, isPreVote: bool)
    | RequestVoteResp(from: Id, to: Id, term: nat, reject: bool, isPreVote: bool)
    | AppendEntries(from: Id, to: Id, term: nat, prevLogIndex: nat, prevLogTerm: nat, entries: seq<Entry>, leaderCommit: nat)
    | AppendEntriesResp(from: Id, to: Id, term: nat, reject: bool, index: nat)

  /** The elements of a sequence. */
  function Elements<T>(s: seq<T>): set<T> {
    set x | x in s
  }

  predicate Distinct<T(==)>(s: seq<T>) {
    forall j, k :: 0 <= j < k < |s| ==> s[j] != s[k]
  }

  lemma {:induction false} DistinctSize<T>(s: seq<T>)
    requires Distinct(s)
    ensures |Elements(s)| == |s|
  {
    if s != [] {
      var init := s[..|s| - 1];
      DistinctSize(init);
      assert Elements(s) == Elements(init) + {s[|s| - 1]};
      assert s[|s| - 1] !in Elements(init);
    }
  }

  /** Reading a Go map: an absent key yields zero. */
  function Get(m: map<Id, nat>, k: Id): nat {
    if k in m then m[k] else 0
  }
}
