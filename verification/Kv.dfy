/** The key-value store that committed entries are applied to. */
module Kv {
  import opened Types

  /** A mutation carried in the data of a log entry. */
  datatype KvCommand = KvCommand(op: string, key: string, value: string)

  const OP_SET := "SET"
  const OP_DELETE := "DELETE"

  /** Decoding of entry data; any deterministic decoder will do. */
  type Decoder = Bytes -> Option<KvCommand>

  type Table = map<string, string>

  datatype ApplyError = Malformed | UnknownOp

  /** The command that data carries, if it is one the store can carry out. */
  function Effective(decode: Decoder, data: Bytes): Option<KvCommand> {
    if data == [] then None
    else match decode(data)
      case None => None
      case Some(c) => if c.op == OP_SET || c.op == OP_DELETE then Some(c) else None
  }

  function Applied(decode: Decoder, table: Table, data: Bytes): Table {
    match Effective(decode, data)
    case None => table
    case Some(c) => if c.op == OP_SET then table[c.key := c.value] else table - {c.key}
  }

  /** Only commands reach the store; no-ops and configuration changes pass by. */
  function AppliedEntry(decode: Decoder, table: Table, e: Entry): Table {
    if e.kind == Command && e.data != [] then Applied(decode, table, e.data) else table
  }

  /** The store after a sequence of entries, applied first to last. */
  function Replay(decode: Decoder, entries: seq<Entry>): Table {
    if entries == [] then map[]
    else AppliedEntry(decode, Replay(decode, entries[..|entries| - 1]), entries[|entries| - 1])
  }

  // ---- What one command does

  /**
   A SET binds its key and no other; a DELETE unbinds its key, bound or not, and no other; any other operation,
   data that does not decode and empty data do nothing.
   */
  lemma AppliedMeans(decode: Decoder, table: Table, data: Bytes, op: string, k: string, v: string, key: string)
    ensures var t := Applied(decode, table, data);
            && (data == [] || decode(data) == None ==> t == table)
            && (data != [] && decode(data) == Some(KvCommand("SET", k, v)) ==>
                  k in t && t[k] == v && (key != k ==> (key in t <==> key in table) && (key in t ==> t[key] == table[key])))
            && (data != [] && decode(data) == Some(KvCommand("DELETE", k, v)) ==>
                  k !in t && (key != k ==> (key in t <==> key in table) && (key in t ==> t[key] == table[key])))
            && (data != [] && decode(data) == Some(KvCommand(op, k, v)) && op != "SET" && op != "DELETE" ==> t == table)
  {
    assert "SET" != "DELETE" by { assert |"SET"| != |"DELETE"|; }
  }

  // ---- What a replayed store holds, key by key

  /** The entry is a command, and it decodes to the given operation on the key. */
  predicate Orders(decode: Decoder, e: Entry, op: string, key: string) {
    && e.kind == Command && e.data != []
    && decode(e.data).Some? && decode(e.data).value.op == op && decode(e.data).value.key == key
  }

  predicate Touches(decode: Decoder, e: Entry, key: string) {
    Orders(decode, e, "SET", key) || Orders(decode, e, "DELETE", key)
  }

  /**
   A key is bound after a replay exactly when some entry sets it and no later entry touches it, and then to
   the value that entry carries: malformed and unknown commands have no effect, and nothing is applied twice
   or out of order.
   */
  lemma {:induction false} ReplayLastWriteWins(decode: Decoder, entries: seq<Entry>, key: string, value: string)
    ensures (key in Replay(decode, entries) && Replay(decode, entries)[key] == value) <==>
            exists k :: 0 <= k < |entries| && SetsLast(decode, entries, k, key, value)
  {
    if entries != [] {
      var init, last := entries[..|entries| - 1], entries[|entries| - 1];
      ReplayLastWriteWins(decode, init, key, value);
      if Touches(decode, last, key) {
        assert forall k :: 0 <= k < |entries| - 1 ==> !SetsLast(decode, entries, k, key, value);
        assert SetsLast(decode, entries, |entries| - 1, key, value) <==>
               decode(last.data) == Some(KvCommand("SET", key, value));
      } else {
        forall k | 0 <= k < |init|
          ensures SetsLast(decode, init, k, key, value) <==> SetsLast(decode, entries, k, key, value)
        {
          assert init[k] == entries[k];
          assert forall j :: k < j < |init| ==> init[j] == entries[j];
          assert forall j :: k < j < |entries| ==> j < |init| || entries[j] == last;
        }
        assert !SetsLast(decode, entries, |entries| - 1, key, value);
      }
    }
  }

  /** Entry k binds the key to the value and no later entry touches the key. */
  ghost predicate SetsLast(decode: Decoder, entries: seq<Entry>, k: int, key: string, value: string)
    requires 0 <= k < |entries|
  {
    && Orders(decode, entries[k], "SET", key) && decode(entries[k].data).value.value == value
    && forall j :: k < j < |entries| ==> !Touches(decode, entries[j], key)
  }

  lemma {:induction false} ReplayAppend(decode: Decoder, entries: seq<Entry>, e: Entry)
    ensures Replay(decode, entries + [e]) == AppliedEntry(decode, Replay(decode, entries), e)
  {
    assert (entries + [e])[..|entries|] == entries;
  }

  class KV {
    var data: Table

    constructor ()
      ensures data == map[]
    {
      data := map[];
    }

    /** Applies the command in bytes; an error means that the store is as it was. */
    method Apply(decode: Decoder, bytes: Bytes) returns (err: Option<ApplyError>)
      modifies this
      ensures data == Applied(decode, old(data), bytes)
      ensures bytes == [] ==> data == old(data) && err == None
      ensures bytes != [] && decode(bytes).None? ==> data == old(data) && err == Some(Malformed)
      ensures forall k, v :: bytes != [] && decode(bytes) == Some(KvCommand("SET", k, v)) ==>
                data == old(data)[k := v] && err == None
      ensures forall k, v :: bytes != [] && decode(bytes) == Some(KvCommand("DELETE", k, v)) ==>
                k !in data && data == old(data) - {k} && err == None
      ensures forall c :: bytes != [] && decode(bytes) == Some(c) && c.op != "SET" && c.op != "DELETE" ==>
                data == old(data) && err == Some(UnknownOp)
    {
      assert |OP_SET| != |OP_DELETE|;
      if |bytes| == 0 {
        return None;
      }
      var cmd := decode(bytes);
      if cmd.None? {
        return Some(Malformed);
      }
      if cmd.value.op == OP_SET {
        data := data[cmd.value.key := cmd.value.value];
      } else if cmd.value.op == OP_DELETE {
        data := data - {cmd.value.key};
      } else {
        return Some(UnknownOp);
      }
      return None;
    }

    method Get(key: string) returns (value: string, found: bool)
      ensures found <==> key in data
      ensures value == if key in data then data[key] else ""
    {
      found := key in data;
      value := if found then data[key] else "";
    }
  }
}
