/** Detecting a client that stopped writing, so that the device plays silence instead of stale samples. */
module StalledWriter {

  datatype History = History(entries: seq<nat>, idx: nat, zeroed: bool)

  predicate Valid(h: History) {
    |h.entries| == 2 && h.idx < 2
  }

  const CLEARED: History := History([0, 0], 0, false)

  datatype Observation = Observation(history: History, zeroing: bool)

  /** One timestamp: records the write count, and decides whether to zero the ring, if there is one. */
  function Observe(h: History, written: nat, ring: bool): (o: Observation)
    requires Valid(h)
    ensures Valid(o.history)
  {
    var entries := h.entries[h.idx := written];
    if !ring || entries[0] == 0 || entries[0] != entries[1] || h.zeroed then
      Observation(History(entries, 1 - h.idx, h.zeroed && !(written > entries[0] || written > entries[1])), false)
    else Observation(History(entries, 0, true), true)
  }

  function After(counts: seq<nat>): (h: History)
    ensures Valid(h)
  {
    if counts == [] then CLEARED
    else Observe(After(counts[..|counts| - 1]), counts[|counts| - 1], true).history
  }

  /** Whether the i-th observation zeroes the ring. */
  predicate Zeroes(counts: seq<nat>, i: nat)
    requires i < |counts|
  {
    Observe(After(counts[..i]), counts[i], true).zeroing
  }

  /** The count at position i - back, where nothing was written before the first observation. */
  function Earlier(counts: seq<nat>, i: nat, back: nat): nat
    requires i < |counts|
  {
    if back <= i then counts[i - back] else 0
  }

  predicate Repeats(counts: seq<nat>, i: nat)
    requires i < |counts|
  {
    counts[i] > 0 && counts[i] == Earlier(counts, i, 1)
  }

  predicate Rises(counts: seq<nat>, i: nat)
    requires i < |counts|
  {
    counts[i] > Earlier(counts, i, 1)
  }

  /** Among the first n counts a positive one was repeated, and none rose after that. */
  ghost predicate Spent(counts: seq<nat>, n: nat)
    requires n <= |counts|
  {
    exists j | 0 <= j < n :: Repeats(counts, j) && QuietSince(counts, j, n)
  }

  predicate QuietSince(counts: seq<nat>, j: nat, n: nat)
    requires n <= |counts|
  {
    forall k :: j < k < n ==> !Rises(counts, k)
  }

  lemma SpentStep(counts: seq<nat>, n: nat)
    requires n < |counts|
    ensures Spent(counts, n + 1) <==> Repeats(counts, n) || (Spent(counts, n) && !Rises(counts, n))
  {
    if Spent(counts, n + 1) {
      var j :| 0 <= j < n + 1 && Repeats(counts, j) && QuietSince(counts, j, n + 1);
      assert j < n ==> QuietSince(counts, j, n);
    }
    if Repeats(counts, n) {
      assert QuietSince(counts, n, n + 1);
    }
    if Spent(counts, n) && !Rises(counts, n) {
      var j :| 0 <= j < n && Repeats(counts, j) && QuietSince(counts, j, n);
      assert QuietSince(counts, j, n + 1);
    }
  }

  /** The two entries are the last two counts, and the flag says whether the run has been dealt with. */
  lemma {:induction false} AfterShape(counts: seq<nat>, n: nat)
    requires n <= |counts|
    ensures var h := After(counts[..n]);
            && (n > 0 ==> h.entries[1 - h.idx] == counts[n - 1] && h.entries[h.idx] == Earlier(counts, n - 1, 1))
            && (n == 0 ==> h == CLEARED)
            && (h.zeroed <==> Spent(counts, n))
  {
    if n > 0 {
      AfterShape(counts, n - 1);
      assert counts[..n][..n - 1] == counts[..n - 1];
      SpentStep(counts, n - 1);
      hide Spent;
    }
  }

  /**
   For every sequence of counts: the ring is zeroed at an observation exactly when
   that repeats a positive count and no earlier repeat has gone without a rise since.
   */
  lemma ZeroesExactly(counts: seq<nat>, i: nat)
    requires i < |counts|
    ensures Zeroes(counts, i) <==> Repeats(counts, i) && !Spent(counts, i)
  {
    AfterShape(counts, i);
    hide Spent;
  }

  predicate NonDecreasing(counts: seq<nat>) {
    forall i :: 0 < i < |counts| ==> counts[i - 1] <= counts[i]
  }

  /** The second observation of a positive value: the run of that value starts one observation earlier. */
  predicate SecondOfRun(counts: seq<nat>, i: nat)
    requires i < |counts|
  {
    i > 0 && counts[i] > 0 && counts[i] == counts[i - 1] && (i == 1 || counts[i - 2] != counts[i - 1])
  }

  /**
   So for counts that never decrease, exactly once per maximal run of at least two
   equal positive counts: at the run's second observation.
   */
  lemma OncePerRun(counts: seq<nat>, i: nat)
    requires NonDecreasing(counts) && i < |counts|
    ensures Zeroes(counts, i) <==> SecondOfRun(counts, i)
  {
    ZeroesExactly(counts, i);
    if i > 0 && Repeats(counts, i) {
      if SecondOfRun(counts, i) {
        assert Rises(counts, i - 1);
        if Spent(counts, i) {
          SpentStep(counts, i - 1);
        }
      } else {
        assert Repeats(counts, i - 1) && QuietSince(counts, i - 1, i);
      }
    }
  }

  /** When the count falls, as after a rewind, the second stall goes unnoticed. */
  lemma FallingCountMissed()
    ensures var counts := [5, 5, 3, 3]; SecondOfRun(counts, 3) && !Zeroes(counts, 3)
  {
    var counts := [5, 5, 3, 3];
    ZeroesExactly(counts, 3);
    assert Repeats(counts, 1) && QuietSince(counts, 1, 3);
  }

  /** Without a ring nothing is zeroed, and the flag is not raised; zeroing starts the history over. */
  lemma ZeroingNeedsRing(h: History, written: nat, ring: bool)
    requires Valid(h)
    ensures var o := Observe(h, written, ring);
            && (!ring ==> !o.zeroing && (o.history.zeroed ==> h.zeroed))
            && (o.zeroing ==> !h.zeroed && written > 0 && o.history == History([written, written], 0, true))
  {
    var entries := h.entries[h.idx := written];
    assert entries[0] == entries[1] ==> entries == [written, written];
  }

  class WriteHistory {
    const entries: array<nat>
    var idx: nat
    var zeroed: bool

    ghost predicate Ok()
      reads this
    {
      entries.Length == 2 && idx < 2
    }

    ghost function View(): History
      reads this, entries
    {
      History(entries[..], idx, zeroed)
    }

    constructor ()
      ensures Ok() && View() == CLEARED && fresh(entries)
    {
      entries := new nat[2](_ => 0);
      idx, zeroed := 0, false;
      new;
      assert entries[..] == [0, 0];
    }

    /** Returns whether the output ring is to be zeroed. */
    method Check(written: nat, ring: bool) returns (zeroing: bool)
      requires Ok()
      modifies this, entries
      ensures Ok()
      ensures var o := Observe(old(View()), written, ring); View() == o.history && zeroing == o.zeroing
    {
      entries[idx] := written;
      assert entries[..] == old(entries[..])[idx := written];
      if !ring || entries[0] == 0 || entries[0] != entries[1] || zeroed {
        if written > entries[0] || written > entries[1] {
          zeroed := false;
        }
        idx := 1 - idx;
        return false;
      }
      zeroed, idx := true, 0;
      return true;
    }
  }
}
