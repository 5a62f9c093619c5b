/**
 * Value-level rules behind the quadrant bookkeeping: which quadrant the zone shrinks
 * toward (the least occupied one, ties to the earliest), how a player leaves a
 * quadrant's list, and which angle slot a quadrant takes when some spawns failed.
 */
module Occupancy {
  import opened Wrappers

  /** MAX_int32: the starting value of the running minimum. */
  const MaxInt32: int := 0x7FFF_FFFF

  // ---------------------------------------------------------------------------
  // Least-occupied quadrant
  // ---------------------------------------------------------------------------

  /**
   * A view of the quadrant array: None for a null slot, Some(n) for a quadrant
   * holding n players.
   */
  type Occupancy = seq<Option<nat>>

  /**
   * Slot k is the one the running-minimum scan ends on: it holds a quadrant, its count
   * is below MAX_int32, no other quadrant holds fewer players, and every quadrant
   * before it holds strictly more (so ties go to the lowest index).
   */
  predicate IsFirstMinimum(counts: Occupancy, k: nat)
  {
    && k < |counts|
    && counts[k].Some?
    && counts[k].value < MaxInt32
    && (forall j :: 0 <= j < |counts| && counts[j].Some? ==> counts[k].value <= counts[j].value)
    && (forall j :: 0 <= j < k && counts[j].Some? ==> counts[k].value < counts[j].value)
  }

  /** No quadrant can beat the initial MAX_int32: every slot is null or that full. */
  predicate NoCandidate(counts: Occupancy)
  {
    forall j :: 0 <= j < |counts| && counts[j].Some? ==> counts[j].value >= MaxInt32
  }

  /** The running minimum a scan holds after the slots of counts. */
  function MinSoFar(counts: Occupancy, m: Option<nat>): int
  {
    if m.Some? && m.value < |counts| && counts[m.value].Some? then counts[m.value].value else MaxInt32
  }

  /**
   * The slot a left-to-right scan with a strict "<" against a running minimum
   * (initially MAX_int32) settles on, defined on ever longer prefixes.
   */
  function FirstMinimum(counts: Occupancy): (m: Option<nat>)
    ensures m.None? <==> NoCandidate(counts)
    ensures m.Some? ==> IsFirstMinimum(counts, m.value)
  {
    if |counts| == 0 then None
    else
      var init := counts[..|counts| - 1];
      var last := counts[|counts| - 1];
      var m := FirstMinimum(init);
      assert m.Some? ==> init[m.value] == counts[m.value];
      if last.Some? && last.value < MinSoFar(init, m) then Some(|counts| - 1)
      else m
  }

  /** The argmin is fully determined: at most one slot satisfies IsFirstMinimum. */
  lemma FirstMinimumUnique(counts: Occupancy, k1: nat, k2: nat)
    requires IsFirstMinimum(counts, k1) && IsFirstMinimum(counts, k2)
    ensures k1 == k2
  {
  }

  /** Adding a player to one quadrant never makes that quadrant newly preferred. */
  lemma {:induction false} FirstMinimumAvoidsGrowth(counts: Occupancy, k: nat, m: nat)
    requires k < |counts| && counts[k].Some?
    requires FirstMinimum(counts) == Some(m) && m != k
    ensures FirstMinimum(counts[k := Some(counts[k].value + 1)]) == Some(m)
  {
    var grown := counts[k := Some(counts[k].value + 1)];
    assert IsFirstMinimum(grown, m);
    var r := FirstMinimum(grown);
    FirstMinimumUnique(grown, r.value, m);
  }

  // ---------------------------------------------------------------------------
  // Removing a player from a quadrant list
  // ---------------------------------------------------------------------------

  /** TArray::Remove: every element equal to x is dropped, the rest keep their order. */
  function RemoveAll<T(==)>(s: seq<T>, x: T): (r: seq<T>)
    ensures x !in r
    ensures multiset(r) == multiset(s)[x := 0]
    ensures |r| <= |s|
    ensures forall k :: 0 <= k < |r| ==> r[k] in s
  {
    if |s| == 0 then []
    else
      var rest := RemoveAll(s[1..], x);
      assert s == [s[0]] + s[1..];
      if s[0] == x then rest else [s[0]] + rest
  }

  /** Removing something absent leaves the list as it was. */
  lemma {:induction false} RemoveAbsent<T>(s: seq<T>, x: T)
    requires x !in s
    ensures RemoveAll(s, x) == s
  {
    if |s| > 0 {
      RemoveAbsent(s[1..], x);
    }
  }

  /** Entering then leaving: an exit undoes every enter of the same player. */
  lemma {:induction false} RemoveAfterAppend<T>(s: seq<T>, x: T)
    ensures RemoveAll(s + [x], x) == RemoveAll(s, x)
  {
    if |s| == 0 {
      assert RemoveAll([x], x) == [];
    } else {
      assert (s + [x])[1..] == s[1..] + [x];
      RemoveAfterAppend(s[1..], x);
    }
  }

  // ---------------------------------------------------------------------------
  // Angle slots
  // ---------------------------------------------------------------------------

  /**
   * The 90-degree steps below n whose quadrant spawned, in increasing order: the order
   * in which the surviving quadrants are added to the array.
   */
  function SpawnedSteps(failures: set<nat>, n: nat): (r: seq<nat>)
    ensures |r| <= n
  {
    if n == 0 then []
    else
      var init := SpawnedSteps(failures, n - 1);
      if n - 1 in failures then init else init + [n - 1]
  }

  /**
   * The spawned steps are exactly the steps below n that did not fail, each once, in
   * increasing order.
   */
  lemma {:induction false} SpawnedStepsExactly(failures: set<nat>, n: nat)
    ensures var r := SpawnedSteps(failures, n);
            && (forall k :: 0 <= k < |r| ==> r[k] < n && r[k] !in failures)
            && (forall i :: 0 <= i < n && i !in failures ==> i in r)
            && (forall a, b :: 0 <= a < b < |r| ==> r[a] < r[b])
  {
    if n > 0 {
      SpawnedStepsExactly(failures, n - 1);
    }
  }

  /**
   * The angle index a slot receives when the array is walked and the index advances
   * only on non-null slots: the number of non-null slots before it.
   */
  function NonNullRank<T>(s: seq<Option<T>>, k: nat): (r: nat)
    requires k <= |s|
    ensures r <= k
  {
    if k == 0 then 0
    else NonNullRank(s, k - 1) + (if s[k - 1].Some? then 1 else 0)
  }

  /** On an array without null slots the angle index is the position itself. */
  lemma {:induction false} NonNullRankWithoutNulls<T>(s: seq<Option<T>>, k: nat)
    requires k <= |s|
    requires forall j :: 0 <= j < |s| ==> s[j].Some?
    ensures NonNullRank(s, k) == k
  {
    if k > 0 {
      NonNullRankWithoutNulls(s, k - 1);
    }
  }

  /** Two non-null slots get different angle indexes. */
  lemma {:induction false} NonNullRankDistinct<T>(s: seq<Option<T>>, a: nat, b: nat)
    requires a < b < |s| && s[a].Some?
    ensures NonNullRank(s, a) < NonNullRank(s, b)
    decreases b
  {
    if b > a + 1 {
      NonNullRankDistinct(s, a, b - 1);
    }
  }
}
