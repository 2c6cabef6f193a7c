/** The durable store: term, vote and log entries in an ordered key-value database. */
module Storage {
  import opened Types
  import opened Keys
  import RaftSpec

  type Database = map<Bytes, Bytes>

  /** How entries and identities become bytes. */
  datatype Codec = Codec(encode: Entry -> Bytes, decode: Bytes -> Option<Entry>, text: Id -> Bytes, untext: Bytes -> Id)

  ghost predicate Lossless(c: Codec) {
    && (forall e :: c.decode(c.encode(e)) == Some(e))
    && (forall s :: c.untext(c.text(s)) == s)
  }

  predicate IsLogKey(k: Bytes) {
    PREFIX_LOG <= k
  }

  function LogKeys(db: Database): set<Bytes> {
    set k | k in db && IsLogKey(k)
  }

  /** The log entries of a database, by key. */
  function LogPart(db: Database): Database {
    map k | k in db && IsLogKey(k) :: db[k]
  }

  // ---- What the database says

  function SavedTerm(db: Database): nat {
    if KEY_TERM in db && |db[KEY_TERM]| == WORD then FromBigEndian(db[KEY_TERM]) else 0
  }

  function SavedVote(c: Codec, db: Database): Id {
    if KEY_VOTE in db then c.untext(db[KEY_VOTE]) else ""
  }

  /** The database after each entry has been written under its index, later ones over earlier ones. */
  function Written(c: Codec, db: Database, entries: seq<Entry>): Database {
    if entries == [] then db
    else
      var e := entries[|entries| - 1];
      Written(c, db, entries[..|entries| - 1])[LogKey(e.index) := c.encode(e)]
  }

  lemma WrittenNext(c: Codec, db: Database, entries: seq<Entry>, k: nat)
    requires k < |entries|
    ensures Written(c, db, entries[..k + 1]) == Written(c, db, entries[..k])[LogKey(entries[k].index) := c.encode(entries[k])]
  {
    assert entries[..k + 1][..k] == entries[..k];
  }

  /** The entries are numbered one, two, three, within 64 bits. */
  ghost predicate Contiguous(entries: seq<Entry>) {
    |entries| <= MAX_UINT64 && forall k :: 0 <= k < |entries| ==> entries[k].index == k + 1
  }

  ghost function KeysOf(entries: seq<Entry>): seq<Bytes> {
    seq(|entries|, k requires 0 <= k < |entries| => LogKey(entries[k].index))
  }

  /** The database holds exactly these log entries. */
  ghost predicate Holds(c: Codec, db: Database, entries: seq<Entry>) {
    && Contiguous(entries)
    && LogKeys(db) == Elements(KeysOf(entries))
    && forall e :: e in entries ==> LogKey(e.index) in db && db[LogKey(e.index)] == c.encode(e)
  }

  lemma KeysSorted(entries: seq<Entry>)
    requires Contiguous(entries)
    ensures Sorted(KeysOf(entries))
  {
    forall j, k | 0 <= j < k < |entries| ensures Less(KeysOf(entries)[j], KeysOf(entries)[k]) {
      LogKeyOrder(entries[j].index, entries[k].index);
    }
  }

  /** The entries are the decoded values of all log keys, in key order. */
  ghost predicate InKeyOrder(c: Codec, db: Database, ks: seq<Bytes>, entries: seq<Entry>) {
    && Sorted(ks)
    && Elements(ks) == LogKeys(db)
    && |entries| == |ks|
    && forall k :: 0 <= k < |ks| ==> ks[k] in db && c.decode(db[ks[k]]) == Some(entries[k])
  }

  /** The entries read so far, with the keys still to visit. */
  ghost predicate Reading(c: Codec, db: Database, ks: seq<Bytes>, rest: set<Bytes>, entries: seq<Entry>) {
    && Sorted(ks)
    && Elements(ks) + rest == LogKeys(db)
    && (forall j, x :: 0 <= j < |ks| && x in rest ==> Less(ks[j], x))
    && |entries| == |ks|
    && forall k :: 0 <= k < |ks| ==> ks[k] in db && c.decode(db[ks[k]]) == Some(entries[k])
  }

  lemma ReadOne(c: Codec, db: Database, ks: seq<Bytes>, rest: set<Bytes>, entries: seq<Entry>, key: Bytes)
    requires Reading(c, db, ks, rest, entries) && First(rest, key)
    requires key in db && c.decode(db[key]).Some?
    ensures Reading(c, db, ks + [key], rest - {key}, entries + [c.decode(db[key]).value])
  {
    assert Elements(ks + [key]) == Elements(ks) + {key};
  }

  lemma ReadAll(c: Codec, db: Database, ks: seq<Bytes>, entries: seq<Entry>)
    requires Reading(c, db, ks, {}, entries)
    ensures Loaded(c, db, entries, true)
  {
    assert Elements(ks) + {} == Elements(ks);
    assert InKeyOrder(c, db, ks, entries);
    forall k | k in LogKeys(db) ensures !Garbled(c, db, k) {
      assert k in Elements(ks);
    }
  }

  /** A value under a log key that is not an entry. */
  ghost predicate Garbled(c: Codec, db: Database, k: Bytes) {
    k in LogKeys(db) && c.decode(db[k]).None?
  }

  /**
   What reading in key order gives: the entries of the keys before the first garbled one, and whether there is
   no garbled one.
   */
  ghost predicate Loaded(c: Codec, db: Database, entries: seq<Entry>, ok: bool) {
    if ok then (exists ks :: InKeyOrder(c, db, ks, entries)) && forall k :: !Garbled(c, db, k)
    else exists ks, rest, key :: Reading(c, db, ks, rest, entries) && First(rest, key) && Garbled(c, db, key)
  }

  ghost predicate First(keys: set<Bytes>, key: Bytes) {
    key in keys && forall x :: x in keys && x != key ==> Less(key, x)
  }

  lemma HeldDecodes(c: Codec, db: Database, held: seq<Entry>, k: Bytes)
    requires Lossless(c) && Holds(c, db, held)
    ensures !Garbled(c, db, k)
  {
    if k in LogKeys(db) {
      assert k in Elements(KeysOf(held));
      var j :| 0 <= j < |held| && KeysOf(held)[j] == k;
      assert held[j] in held;
    }
  }

  /** What is held is what reading in key order yields. */
  lemma HeldIsLoaded(c: Codec, db: Database, held: seq<Entry>, entries: seq<Entry>, ok: bool)
    requires Lossless(c) && Holds(c, db, held) && Loaded(c, db, entries, ok)
    ensures ok && entries == held
  {
    forall k ensures !Garbled(c, db, k) { HeldDecodes(c, db, held, k); }
    var ks :| InKeyOrder(c, db, ks, entries);
    KeysSorted(held);
    SortedUnique(ks, KeysOf(held));
    forall k | 0 <= k < |held| ensures entries[k] == held[k] {
      assert ks[k] == LogKey(held[k].index);
    }
    assert entries == held;
  }

  // ---- Cutting and appending

  /** Without the log keys from an index on. */
  ghost function Cut(db: Database, start: nat): Database {
    db - (set k | k in db && IsLogKey(k) && !Less(k, LogKey(start)))
  }

  function CutEntries(entries: seq<Entry>, start: nat): seq<Entry> {
    if start == 0 then [] else if start - 1 <= |entries| then entries[..start - 1] else entries
  }

  /** Which of the held keys a cut leaves. */
  lemma CutKeys(c: Codec, db: Database, entries: seq<Entry>, start: nat, k: nat)
    requires Holds(c, db, entries) && start <= MAX_UINT64 && k < |entries|
    ensures KeysOf(entries)[k] in LogKeys(Cut(db, start)) <==> k + 1 < start
  {
    var key := KeysOf(entries)[k];
    LogKeyOrder(entries[k].index, start);
    assert key in Elements(KeysOf(entries));
    assert key in LogKeys(db);
  }

  /** The keys a cut leaves are those of the entries it keeps. */
  lemma CutLogKeys(c: Codec, db: Database, entries: seq<Entry>, start: nat)
    requires Holds(c, db, entries) && start <= MAX_UINT64
    ensures LogKeys(Cut(db, start)) == Elements(KeysOf(CutEntries(entries, start)))
  {
    var left, kept := LogKeys(Cut(db, start)), CutEntries(entries, start);
    forall k | 0 <= k < |entries| ensures KeysOf(entries)[k] in left <==> k < |kept| {
      CutKeys(c, db, entries, start, k);
    }
    assert KeysOf(kept) == KeysOf(entries)[..|kept|];
    CutElements(LogKeys(db), left, KeysOf(entries), |kept|);
  }

  lemma CutValue(c: Codec, db: Database, entries: seq<Entry>, start: nat, k: nat)
    requires Holds(c, db, entries) && start <= MAX_UINT64 && k < |CutEntries(entries, start)|
    ensures var e := CutEntries(entries, start)[k];
            LogKey(e.index) in Cut(db, start) && Cut(db, start)[LogKey(e.index)] == c.encode(e)
  {
    CutKeys(c, db, entries, start, k);
    assert CutEntries(entries, start)[k] == entries[k] && entries[k] in entries;
    assert KeysOf(entries)[k] == LogKey(entries[k].index);
  }

  /** Cutting the database is cutting the sequence. */
  lemma CutHolds(c: Codec, db: Database, entries: seq<Entry>, start: nat)
    requires Holds(c, db, entries) && start <= MAX_UINT64
    ensures Holds(c, Cut(db, start), CutEntries(entries, start))
  {
    var db', kept := Cut(db, start), CutEntries(entries, start);
    CutLogKeys(c, db, entries, start);
    forall e | e in kept ensures LogKey(e.index) in db' && db'[LogKey(e.index)] == c.encode(e) {
      var k: nat :| k < |kept| && kept[k] == e;
      CutValue(c, db, entries, start, k);
    }
  }

  lemma CutElements(all: set<Bytes>, left: set<Bytes>, ks: seq<Bytes>, n: nat)
    requires left <= all == Elements(ks) && n <= |ks|
    requires forall k :: 0 <= k < |ks| ==> (ks[k] in left <==> k < n)
    ensures left == Elements(ks[..n])
  {
  }

  lemma LogKeyPrefixed(k: nat)
    ensures IsLogKey(LogKey(k))
  {
  }

  lemma AddedKeys(db: Database, key: Bytes, val: Bytes)
    requires IsLogKey(key)
    ensures LogKeys(db[key := val]) == LogKeys(db) + {key}
  {
  }

  lemma ElementsAdded(ks: seq<Bytes>, key: Bytes)
    ensures Elements(ks + [key]) == Elements(ks) + {key}
  {
  }

  lemma WrittenKeys(c: Codec, db: Database, entries: seq<Entry>, e: Entry)
    requires LogKeys(db) == Elements(KeysOf(entries))
    ensures LogKeys(db[LogKey(e.index) := c.encode(e)]) == Elements(KeysOf(entries + [e]))
  {
    var key := LogKey(e.index);
    LogKeyPrefixed(e.index);
    AddedKeys(db, key, c.encode(e));
    assert KeysOf(entries + [e]) == KeysOf(entries) + [key];
    ElementsAdded(KeysOf(entries), key);
  }

  lemma WrittenValue(c: Codec, db: Database, entries: seq<Entry>, e: Entry, d: Entry)
    requires Holds(c, db, entries) && e.index == |entries| + 1 <= MAX_UINT64 && d in entries
    ensures LogKey(d.index) in db && LogKey(d.index) != LogKey(e.index) && db[LogKey(d.index)] == c.encode(d)
  {
    LogKeyOrder(d.index, e.index);
  }

  lemma WrittenOne(c: Codec, db: Database, entries: seq<Entry>, e: Entry)
    requires Holds(c, db, entries) && e.index == |entries| + 1 <= MAX_UINT64
    ensures Holds(c, db[LogKey(e.index) := c.encode(e)], entries + [e])
  {
    var key, db' := LogKey(e.index), db[LogKey(e.index) := c.encode(e)];
    WrittenKeys(c, db, entries, e);
    forall d | d in entries + [e] ensures LogKey(d.index) in db' && db'[LogKey(d.index)] == c.encode(d) {
      if d != e {
        WrittenValue(c, db, entries, e, d);
      }
    }
  }

  /** Writing the entries that come next is appending them. */
  lemma {:induction false} WrittenHolds(c: Codec, db: Database, entries: seq<Entry>, more: seq<Entry>)
    requires Holds(c, db, entries) && Contiguous(entries + more)
    ensures Holds(c, Written(c, db, more), entries + more)
  {
    if more == [] {
      assert entries + more == entries;
    } else {
      var init, e := more[..|more| - 1], more[|more| - 1];
      assert entries + more == (entries + init) + [e];
      forall k | 0 <= k < |entries + init| ensures (entries + init)[k].index == k + 1 {
        assert (entries + init)[k] == (entries + more)[k];
      }
      assert (entries + more)[|entries + init|] == e;
      WrittenHolds(c, db, entries, init);
      WrittenOne(c, Written(c, db, init), entries + init, e);
    }
  }

  /** Truncating at a conflict and writing the new suffix stores what truncating and appending in memory gives. */
  lemma TruncateAndAppend(c: Codec, db: Database, entries: seq<Entry>, start: nat, more: seq<Entry>)
    requires Holds(c, db, entries) && 1 <= start <= |entries| + 1 && start <= MAX_UINT64
    requires Contiguous(entries[..start - 1] + more)
    ensures Holds(c, Written(c, Cut(db, start), more), entries[..start - 1] + more)
  {
    CutHolds(c, db, entries, start);
    WrittenHolds(c, Cut(db, start), entries[..start - 1], more);
  }

  /** A merge keeps the log up to some point and puts the rest of the received entries there. */
  lemma {:induction false} MergeSplit(log: Log, prev: nat, entries: seq<Entry>) returns (start: nat, k: nat)
    requires RaftSpec.Numbered(log) && prev < |log|
    ensures prev < start <= |log| && k <= |entries| && (k == |entries| || start == prev + 1 + k)
    ensures RaftSpec.Merge(log, prev + 1, entries) == log[..start] + entries[k..]
    decreases |entries|
  {
    if entries == [] {
      start, k := |log|, 0;
    } else if prev + 1 < |log| && log[prev + 1].term == entries[0].term {
      start, k := MergeSplit(log, prev + 1, entries[1..]);
      k := k + 1;
    } else {
      start, k := prev + 1, 0;
    }
  }

  lemma SplitContiguous(log: Log, prev: nat, entries: seq<Entry>, start: nat, k: nat)
    requires RaftSpec.Numbered(log) && |log| <= MAX_UINT64 && prev + |entries| <= MAX_UINT64
    requires RaftSpec.FollowOn(prev, entries)
    requires prev < start <= |log| && k <= |entries| && (k == |entries| || start == prev + 1 + k)
    ensures Contiguous(log[1..][..start - 1] + entries[k..])
  {
  }

  /**
   Whatever a follower's merge does to its log, one truncation of the database and one append of the rest of the
   received entries do to the log it holds.
   */
  lemma MergeStored(c: Codec, db: Database, log: Log, prev: nat, entries: seq<Entry>) returns (start: nat, k: nat)
    requires RaftSpec.Numbered(log) && prev < |log| <= MAX_UINT64 && prev + |entries| <= MAX_UINT64
    requires RaftSpec.FollowOn(prev, entries) && Holds(c, db, log[1..])
    ensures prev < start <= |log| && k <= |entries|
    ensures RaftSpec.Merge(log, prev + 1, entries) == log[..start] + entries[k..]
    ensures Holds(c, Written(c, Cut(db, start), entries[k..]), log[1..start] + entries[k..])
  {
    start, k := MergeSplit(log, prev, entries);
    SplitContiguous(log, prev, entries, start, k);
    SplitStored(c, db, log, start, entries[k..]);
  }

  lemma SplitStored(c: Codec, db: Database, log: Log, start: nat, more: seq<Entry>)
    requires 1 <= start <= |log| <= MAX_UINT64 && Holds(c, db, log[1..]) && Contiguous(log[1..][..start - 1] + more)
    ensures Holds(c, Written(c, Cut(db, start), more), log[1..start] + more)
  {
    TailTake(log, start);
    TruncateAndAppend(c, db, log[1..], start, more);
  }

  lemma TailTake<T>(s: seq<T>, n: nat)
    requires 1 <= n <= |s|
    ensures s[1..][..n - 1] == s[1..n]
  {
  }

  /** The bytes of the two keys that are not log keys. */
  lemma StateKeys()
    ensures !IsLogKey(KEY_TERM) && !IsLogKey(KEY_VOTE) && KEY_TERM != KEY_VOTE
  {
    assert KEY_TERM[0] != PREFIX_LOG[0] && KEY_VOTE[0] != PREFIX_LOG[0] && KEY_TERM[2] != KEY_VOTE[2];
  }

  /** Truncating the log leaves the saved term and vote. */
  lemma CutKeepsState(c: Codec, db: Database, start: nat)
    ensures SavedTerm(Cut(db, start)) == SavedTerm(db) && SavedVote(c, Cut(db, start)) == SavedVote(c, db)
  {
    StateKeys();
  }

  /** So does writing log entries. */
  lemma {:induction false} WrittenKeepsState(c: Codec, db: Database, entries: seq<Entry>)
    ensures SavedTerm(Written(c, db, entries)) == SavedTerm(db) && SavedVote(c, Written(c, db, entries)) == SavedVote(c, db)
  {
    if entries != [] {
      WrittenKeepsState(c, db, entries[..|entries| - 1]);
      StateKeys();
      LogKeyPrefixed(entries[|entries| - 1].index);
    }
  }

  // ---- The store

  class Store {
    const codec: Codec
    var db: Database

    constructor (codec: Codec)
      ensures this.codec == codec && db == map[]
    {
      this.codec := codec;
      db := map[];
    }

    /** The bytes of a number, most significant first, filled in from the last. */
    method PutUint(n: nat, width: nat) returns (buf: Bytes)
      ensures buf == BigEndian(n, width)
    {
      buf := [];
      var rest := n;
      for k := 0 to width
        invariant BigEndian(rest, width - k) + buf == BigEndian(n, width)
      {
        assert BigEndian(rest, width - k) + buf == BigEndian(rest / 256, width - k - 1) + ([rest % 256] + buf);
        buf := [rest % 256] + buf;
        rest := rest / 256;
      }
    }

    /** The key of an index: the prefix, then the bytes of the index. */
    method MakeKey(index: nat) returns (key: Bytes)
      ensures key == LogKey(index)
    {
      var buf := PutUint(index, WORD);
      key := PREFIX_LOG + buf;
    }

    method SaveState(term: nat, votedFor: Id)
      modifies this
      ensures db == old(db)[KEY_TERM := BigEndian(term, WORD)][KEY_VOTE := codec.text(votedFor)]
      ensures term <= MAX_UINT64 ==> SavedTerm(db) == term
      ensures Lossless(codec) ==> SavedVote(codec, db) == votedFor
      ensures LogPart(db) == LogPart(old(db))
    {
      var buf := PutUint(term, WORD);
      db := db[KEY_TERM := buf];
      db := db[KEY_VOTE := codec.text(votedFor)];
      Range64();
      BigEndianLength(term, WORD);
      if term <= MAX_UINT64 {
        BigEndianRoundTrip(term, WORD);
      }
      assert KEY_TERM[0] != PREFIX_LOG[0] && KEY_VOTE[0] != PREFIX_LOG[0] && KEY_TERM[2] != KEY_VOTE[2];
    }

    method LoadState() returns (term: nat, votedFor: Id)
      ensures term == SavedTerm(db) && votedFor == SavedVote(codec, db)
      ensures KEY_TERM !in db || |db[KEY_TERM]| != 8 ==> term == 0
      ensures KEY_TERM in db && |db[KEY_TERM]| == 8 ==> term == FromBigEndian(db[KEY_TERM])
      ensures votedFor == if KEY_VOTE in db then codec.untext(db[KEY_VOTE]) else ""
    {
      term, votedFor := 0, "";
      if KEY_TERM in db {
        var val := db[KEY_TERM];
        if |val| == WORD {
          term := FromBigEndian(val);
        }
      }
      if KEY_VOTE in db {
        votedFor := codec.untext(db[KEY_VOTE]);
      }
    }

    method AppendEntries(entries: seq<Entry>)
      modifies this
      ensures db == Written(codec, old(db), entries)
      ensures SavedTerm(db) == old(SavedTerm(db)) && SavedVote(codec, db) == old(SavedVote(codec, db))
    {
      for k := 0 to |entries|
        invariant db == Written(codec, old(db), entries[..k])
      {
        WrittenNext(codec, old(db), entries, k);
        var key := MakeKey(entries[k].index);
        db := db[key := codec.encode(entries[k])];
      }
      WrittenKeepsState(codec, old(db), entries);
      assert entries[..|entries|] == entries;
    }

    /** The first of some keys in dictionary order. */
    method Least(keys: set<Bytes>) returns (k: Bytes)
      requires keys != {}
      ensures First(keys, k)
    {
      k :| k in keys;
      var rest := keys - {k};
      while rest != {}
        invariant k in keys && rest <= keys && k !in rest
        invariant forall x :: x in keys && x !in rest && x != k ==> Less(k, x)
        decreases |rest|
      {
        var x :| x in rest;
        LessTotal(k, x);
        if Less(x, k) {
          forall y | y in keys && y !in rest && y != k ensures Less(x, y) {
            LessTransitive(x, k, y);
          }
          k := x;
        }
        rest := rest - {x};
      }
    }

    /**
     Reads the log entries in key order. At a value that is not an entry it fails, with the entries read so far;
     nothing else makes it fail.
     */
    method LoadLog() returns (entries: seq<Entry>, ok: bool)
      ensures Loaded(codec, db, entries, ok)
    {
      entries, ok := [], true;
      ghost var ks: seq<Bytes> := [];
      var rest := LogKeys(db);
      while rest != {}
        invariant Reading(codec, db, ks, rest, entries)
        decreases |rest|
      {
        var key := Least(rest);
        var entry := codec.decode(db[key]);
        if entry.None? {
          assert Garbled(codec, db, key);
          return entries, false;
        }
        ReadOne(codec, db, ks, rest, entries, key);
        entries := entries + [entry.value];
        ks := ks + [key];
        rest := rest - {key};
      }
      ReadAll(codec, db, ks, entries);
    }

    method TruncateFrom(start: nat)
      modifies this
      ensures db == Cut(old(db), start)
      ensures SavedTerm(db) == old(SavedTerm(db)) && SavedVote(codec, db) == old(SavedVote(codec, db))
    {
      CutKeepsState(codec, db, start);
      var from := MakeKey(start);
      var rest := set k | k in db && IsLogKey(k) && !Less(k, from);
      ghost var doomed := rest;
      while rest != {}
        invariant rest <= doomed && db == old(db) - (doomed - rest)
        decreases |rest|
      {
        var k := Least(rest);
        db := db - {k};
        rest := rest - {k};
      }
    }
  }
}
