/** Induction over runs with restarts, for any invariant relative to a record of the past. */
module Runs {
  import opened Kv
  import opened Cluster

  /** The record of a cluster in which nothing has happened yet. */
  ghost predicate Starts<G(!new)>(inv: (State, G) -> bool, blank: G) {
    forall s :: Init(s) ==> inv(s, blank)
  }

  /** Every step leads from a record to one that comes after it. */
  ghost predicate Continues<G(!new)>(decode: Decoder, inv: (State, G) -> bool, next: (G, State, G) -> bool) {
    forall s, s', g {:trigger NextOrRestart(decode, s, s'), inv(s, g)} ::
      inv(s, g) && NextOrRestart(decode, s, s') ==> exists g' :: inv(s', g') && next(g, s', g')
  }

  /** One record for every state, each coming after the one before. */
  ghost predicate Recorded<G(!new)>(run: seq<State>, gs: seq<G>, inv: (State, G) -> bool, next: (G, State, G) -> bool) {
    && |gs| == |run| > 0
    && (forall k {:trigger RecordedAt(run, gs, inv, k)} :: 0 <= k < |run| ==> RecordedAt(run, gs, inv, k))
    && (forall k {:trigger GoesOn(run, gs, next, k)} :: 0 < k < |run| ==> GoesOn(run, gs, next, k))
  }

  ghost predicate RecordedAt<G(!new)>(run: seq<State>, gs: seq<G>, inv: (State, G) -> bool, k: int)
    requires 0 <= k < |run| == |gs|
  {
    inv(run[k], gs[k])
  }

  ghost predicate GoesOn<G(!new)>(run: seq<State>, gs: seq<G>, next: (G, State, G) -> bool, k: int)
    requires 0 < k < |run| == |gs|
  {
    next(gs[k - 1], run[k], gs[k])
  }

  lemma {:induction false} Record<G(!new)>(decode: Decoder, run: seq<State>, inv: (State, G) -> bool,
                                           next: (G, State, G) -> bool, blank: G)
    returns (gs: seq<G>)
    requires RunWithRestarts(decode, run) && Starts(inv, blank) && Continues(decode, inv, next)
    ensures Recorded(run, gs, inv, next) && gs[0] == blank
  {
    var last := |run| - 1;
    if last == 0 {
      gs := [blank];
    } else {
      var init := run[..last];
      assert RunWithRestarts(decode, init) by {
        forall k | 0 < k < last ensures MovesOrRestarts(decode, init, k) { assert MovesOrRestarts(decode, run, k); }
      }
      var hs := Record(decode, init, inv, next, blank);
      assert MovesOrRestarts(decode, run, last);
      assert RecordedAt(init, hs, inv, last - 1);
      var g :| inv(run[last], g) && next(hs[last - 1], run[last], g);
      gs := hs + [g];
      forall k | 0 <= k < |run| ensures RecordedAt(run, gs, inv, k) { assert k < last ==> RecordedAt(init, hs, inv, k); }
      forall k | 0 < k < |run| ensures GoesOn(run, gs, next, k) { assert k < last ==> GoesOn(init, hs, next, k); }
    }
  }

  /** A relation that every step keeps, and that is reflexive and transitive, relates any two moments in order. */
  lemma {:induction false} Ordered<G(!new)>(gs: seq<G>, le: (G, G) -> bool, j: nat, k: nat)
    requires j <= k < |gs|
    requires (forall g :: le(g, g)) && (forall a, b, c :: le(a, b) && le(b, c) ==> le(a, c))
    requires forall n {:trigger Rises(gs, le, n)} :: 0 < n < |gs| ==> Rises(gs, le, n)
    ensures le(gs[j], gs[k])
    decreases k
  {
    if j < k {
      Ordered(gs, le, j, k - 1);
      assert Rises(gs, le, k);
    }
  }

  ghost predicate Rises<G(!new)>(gs: seq<G>, le: (G, G) -> bool, n: int)
    requires 0 < n < |gs|
  {
    le(gs[n - 1], gs[n])
  }

  /** A run may go on with any step. */
  lemma Extend(decode: Decoder, run: seq<State>, s: State)
    requires RunWithRestarts(decode, run) && NextOrRestart(decode, run[|run| - 1], s)
    ensures RunWithRestarts(decode, run + [s])
  {
    var run' := run + [s];
    forall k | 0 < k < |run'| ensures MovesOrRestarts(decode, run', k) {
      if k < |run| {
        assert MovesOrRestarts(decode, run, k);
      }
    }
  }

  /** A run without restarts is one of the runs with restarts. */
  lemma Subsumes(decode: Decoder, run: seq<State>)
    requires Run(decode, run)
    ensures RunWithRestarts(decode, run)
  {
    forall k | 0 < k < |run| ensures MovesOrRestarts(decode, run, k) {
      assert Moves(decode, run, k);
    }
  }
}
