/** Byte strings in dictionary order, and the keys under which log entries are stored. */
module Keys {
  import opened Types

  // ---- Dictionary order

  predicate Less(a: Bytes, b: Bytes) {
    if b == [] then false
    else if a == [] then true
    else if a[0] != b[0] then a[0] < b[0]
    else Less(a[1..], b[1..])
  }

  lemma {:induction false} LessIrreflexive(a: Bytes)
    ensures !Less(a, a)
  {
    if a != [] {
      LessIrreflexive(a[1..]);
    }
  }

  lemma {:induction false} LessTransitive(a: Bytes, b: Bytes, c: Bytes)
    requires Less(a, b) && Less(b, c)
    ensures Less(a, c)
  {
    if a != [] && a[0] == b[0] && b[0] == c[0] {
      LessTransitive(a[1..], b[1..], c[1..]);
    }
  }

  lemma {:induction false} LessTotal(a: Bytes, b: Bytes)
    ensures Less(a, b) || a == b || Less(b, a)
  {
    if a != [] && b != [] && a[0] == b[0] {
      LessTotal(a[1..], b[1..]);
      assert a == [a[0]] + a[1..] && b == [b[0]] + b[1..];
    }
  }

  lemma {:induction false} LessAppend(a: Bytes, b: Bytes, x: byte, y: byte)
    requires |a| == |b|
    ensures Less(a + [x], b + [y]) <==> Less(a, b) || (a == b && x < y)
  {
    if a != [] {
      assert (a + [x])[1..] == a[1..] + [x] && (b + [y])[1..] == b[1..] + [y];
      LessAppend(a[1..], b[1..], x, y);
      assert a == b <==> a[0] == b[0] && a[1..] == b[1..] by {
        assert a == [a[0]] + a[1..] && b == [b[0]] + b[1..];
      }
    }
  }

  lemma {:induction false} LessPrepend(p: Bytes, a: Bytes, b: Bytes)
    ensures Less(p + a, p + b) <==> Less(a, b)
  {
    if p == [] {
      assert p + a == a && p + b == b;
    } else {
      assert (p + a)[1..] == p[1..] + a && (p + b)[1..] == p[1..] + b;
      LessPrepend(p[1..], a, b);
    }
  }

  // ---- Big-endian numbers

  /** The low-order bytes of n, most significant first. */
  function BigEndian(n: nat, width: nat): Bytes
    decreases width
  {
    if width == 0 then [] else BigEndian(n / 256, width - 1) + [n % 256]
  }

  function FromBigEndian(b: Bytes): nat {
    if b == [] then 0 else FromBigEndian(b[..|b| - 1]) * 256 + b[|b| - 1]
  }

  function Range(width: nat): nat {
    if width == 0 then 1 else 256 * Range(width - 1)
  }

  lemma {:induction false} BigEndianLength(n: nat, width: nat)
    ensures |BigEndian(n, width)| == width
    decreases width
  {
    if width > 0 {
      BigEndianLength(n / 256, width - 1);
    }
  }

  /** A number within range comes back from its bytes. */
  lemma {:induction false} BigEndianRoundTrip(n: nat, width: nat)
    requires n < Range(width)
    ensures FromBigEndian(BigEndian(n, width)) == n
    decreases width
  {
    if width > 0 {
      var init := BigEndian(n / 256, width - 1);
      assert BigEndian(n, width)[..|init|] == init;
      BigEndianRoundTrip(n / 256, width - 1);
    }
  }

  /** Within range, byte order is numeric order. */
  lemma {:induction false} BigEndianOrder(m: nat, n: nat, width: nat)
    requires m < Range(width) && n < Range(width)
    ensures Less(BigEndian(m, width), BigEndian(n, width)) <==> m < n
    decreases width
  {
    if width > 0 {
      BigEndianOrder(m / 256, n / 256, width - 1);
      BigEndianLength(m / 256, width - 1);
      BigEndianLength(n / 256, width - 1);
      LessAppend(BigEndian(m / 256, width - 1), BigEndian(n / 256, width - 1), m % 256, n % 256);
      if m / 256 != n / 256 {
        BigEndianRoundTrip(m / 256, width - 1);
        BigEndianRoundTrip(n / 256, width - 1);
      }
    }
  }

  /** A stored number takes eight bytes. */
  const WORD: nat := 8

  lemma Range64()
    ensures Range(WORD) == MAX_UINT64 + 1
  {
    assert Range(2) == 0x1_0000;
    assert Range(4) == 0x1_0000_0000;
    assert Range(6) == 0x1_0000_0000_0000;
  }

  // ---- Keys

  const PREFIX_LOG: Bytes := [108, 58]                     // "l:"
  const KEY_TERM: Bytes := [109, 58, 116, 101, 114, 109]   // "m:term"
  const KEY_VOTE: Bytes := [109, 58, 118, 111, 116, 101]   // "m:vote"

  function LogKey(index: nat): Bytes {
    PREFIX_LOG + BigEndian(index, WORD)
  }

  /** Keys of log entries sort by index, over all 64-bit indices. */
  lemma LogKeyOrder(m: nat, n: nat)
    requires m <= MAX_UINT64 && n <= MAX_UINT64
    ensures Less(LogKey(m), LogKey(n)) <==> m < n
    ensures LogKey(m) == LogKey(n) <==> m == n
  {
    Range64();
    BigEndianOrder(m, n, WORD);
    LessPrepend(PREFIX_LOG, BigEndian(m, WORD), BigEndian(n, WORD));
    BigEndianRoundTrip(m, WORD);
    BigEndianRoundTrip(n, WORD);
    assert LogKey(m)[2..] == BigEndian(m, WORD) && LogKey(n)[2..] == BigEndian(n, WORD);
  }

  /** A log key is the two bytes of "l:" and the eight bytes of the index, from which the index can be read. */
  lemma LogKeyLayout(n: nat)
    requires n <= MAX_UINT64
    ensures |LogKey(n)| == 10 && LogKey(n)[..2] == [108, 58] && FromBigEndian(LogKey(n)[2..]) == n
  {
    Range64();
    BigEndianLength(n, WORD);
    BigEndianRoundTrip(n, WORD);
    assert LogKey(n)[2..] == BigEndian(n, WORD) && LogKey(n)[..2] == PREFIX_LOG;
  }

  // ---- Sorted sequences of keys

  ghost predicate Sorted(ks: seq<Bytes>) {
    forall j, k :: 0 <= j < k < |ks| ==> Less(ks[j], ks[k])
  }

  /** There is only one way to put a set of keys in order. */
  lemma {:induction false} SortedUnique(a: seq<Bytes>, b: seq<Bytes>)
    requires Sorted(a) && Sorted(b) && Elements(a) == Elements(b)
    ensures a == b
  {
    forall x | x in b ensures x in a { assert x in Elements(b); }
    forall x | x in a ensures x in b { assert x in Elements(a); }
    assert |b| > 0 ==> b[0] in b;
    if a != [] {
      assert a[0] in a;
      SameHead(a, b);
      RestElements(a);
      RestElements(b);
      SortedUnique(a[1..], b[1..]);
      assert a == [a[0]] + a[1..] && b == [b[0]] + b[1..];
    }
  }

  lemma SameHead(a: seq<Bytes>, b: seq<Bytes>)
    requires Sorted(a) && Sorted(b) && a != [] && b != [] && a[0] in b && b[0] in a
    ensures a[0] == b[0]
  {
    if a[0] != b[0] {
      LessTransitive(a[0], b[0], a[0]);
      LessIrreflexive(a[0]);
      assert false;
    }
  }

  lemma RestElements(a: seq<Bytes>)
    requires Sorted(a) && a != []
    ensures Elements(a[1..]) == Elements(a) - {a[0]}
  {
    forall k | 1 <= k < |a| ensures a[k] != a[0] {
      LessIrreflexive(a[0]);
    }
  }
}
