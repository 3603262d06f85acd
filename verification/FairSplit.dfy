/**
 * What a fair split of a total of points is, said of the parts alone: no order, no
 * loop and no sort (apportionPoints of src/modules/ai-credits/ai-credit.logic.ts).
 * There is exactly one.
 */
module FairSplit {
  import opened Common
  import opened Apportionment

  /** The whole units of the exact share units * w[i] / sum, and what it has beyond them, in sum-ths. */
  function Whole(units: nat, w: seq<nat>, i: nat): nat
    requires Sum(w) > 0 && i < |w|
  {
    units * w[i] / Sum(w)
  }

  function Beyond(units: nat, w: seq<nat>, i: nat): nat
    requires Sum(w) > 0 && i < |w|
  {
    units * w[i] % Sum(w)
  }

  /** Part i has more than the whole units of its share. */
  predicate Up(units: nat, w: seq<nat>, p: seq<nat>, i: nat)
    requires Sum(w) > 0 && i < |w| == |p|
  {
    p[i] > Whole(units, w, i)
  }

  /** Each part is its exact share, rounded down or up. */
  ghost predicate RoundsShares(units: nat, w: seq<nat>, p: seq<nat>)
    requires Sum(w) > 0 && |p| == |w|
  {
    forall i: nat :: i < |p| ==>
      p[i] == Whole(units, w, i) || (Beyond(units, w, i) != 0 && p[i] == Whole(units, w, i) + 1)
  }

  /** Whoever is rounded up has more beyond the whole units than whoever is not, or as much and comes earlier. */
  ghost predicate RoundsUpTheLargest(units: nat, w: seq<nat>, p: seq<nat>)
    requires Sum(w) > 0 && |p| == |w|
  {
    forall i: nat, j: nat :: i < |p| && j < |p| && Up(units, w, p, i) && !Up(units, w, p, j) ==>
      Beyond(units, w, i) > Beyond(units, w, j) || (Beyond(units, w, i) == Beyond(units, w, j) && i < j)
  }

  ghost predicate FairParts(units: nat, w: seq<nat>, p: seq<nat>)
    requires Sum(w) > 0
  {
    |p| == |w| && Sum(p) == units && RoundsShares(units, w, p) && RoundsUpTheLargest(units, w, p)
  }

  /** The parts, with null as nothing. */
  function Values(parts: seq<Option<nat>>): (p: seq<nat>)
    ensures |p| == |parts|
    ensures forall i :: 0 <= i < |p| ==> p[i] == match parts[i] { case Some(v) => v case None => 0 }
  {
    seq(|parts|, i requires 0 <= i < |parts| => match parts[i] case Some(v) => v case None => 0)
  }

  /** No part is null; they are fair to the positive weights, or all goes to the first when there is none. */
  ghost predicate Fair(units: nat, raw: seq<int>, parts: seq<Option<nat>>) {
    && |parts| == |raw|
    && (forall i :: 0 <= i < |parts| ==> parts[i].Some?)
    && if Sum(Weights(raw)) > 0 then FairParts(units, Weights(raw), Values(parts))
       else forall i :: 0 <= i < |parts| ==> parts[i] == Some(if i == 0 then units else 0)
  }

  // ── The split of module Apportionment is fair ──

  lemma FewerAheadComesBefore(r: seq<nat>, i: nat, j: nat)
    requires i < |r| && j < |r| && |Ahead(r, i)| < |Ahead(r, j)|
    ensures Before(r, i, j)
  {
    if Before(r, j, i) { AheadGrows(r, j, i); }
  }

  lemma PartsRoundUpTheLargest(units: nat, w: seq<nat>)
    requires Sum(w) > 0
    ensures RoundsUpTheLargest(units, w, Parts(units, w))
  {
    var p, a, m := Parts(units, w), Shares(units, w), Sum(w);
    var r := Remainders(a, m);
    forall i: nat, j: nat | i < |p| && j < |p| && Up(units, w, p, i) && !Up(units, w, p, j)
      ensures Beyond(units, w, i) > Beyond(units, w, j) || (Beyond(units, w, i) == Beyond(units, w, j) && i < j)
    {
      assert |Ahead(r, i)| < Rest(units, Floors(a, m)) <= |Ahead(r, j)|;
      FewerAheadComesBefore(r, i, j);
      assert r[i] == Beyond(units, w, i) && r[j] == Beyond(units, w, j);
    }
  }

  lemma PartsRoundShares(units: nat, w: seq<nat>)
    requires Sum(w) > 0
    ensures RoundsShares(units, w, Parts(units, w))
  {
    var p := Parts(units, w);
    forall i: nat | i < |p|
      ensures p[i] == Whole(units, w, i) || (Beyond(units, w, i) != 0 && p[i] == Whole(units, w, i) + 1)
    {
      PartIsFloorOrCeiling(units, w, i);
    }
  }

  // ── There is only one ──

  lemma {:induction false} LargerSum(p: seq<nat>, q: seq<nat>)
    requires |p| == |q| && forall i :: 0 <= i < |p| ==> p[i] >= q[i]
    ensures Sum(p) >= Sum(q) && (Sum(p) == Sum(q) ==> p == q)
  {
    if |p| > 0 {
      LargerSum(p[..|p| - 1], q[..|p| - 1]);
      assert p == p[..|p| - 1] + [p[|p| - 1]] && q == q[..|p| - 1] + [q[|p| - 1]];
    }
  }

  /** Two different lists with the same sum have a place where the first is larger. */
  lemma LargerSomewhere(p: seq<nat>, q: seq<nat>) returns (i: nat)
    requires |p| == |q| && Sum(p) == Sum(q) && p != q
    ensures i < |p| && p[i] > q[i]
  {
    if forall k :: 0 <= k < |p| ==> q[k] >= p[k] { LargerSum(q, p); }
    i :| 0 <= i < |p| && p[i] > q[i];
  }

  lemma NoTrade(units: nat, w: seq<nat>, p: seq<nat>, q: seq<nat>, i: nat, j: nat)
    requires Sum(w) > 0 && FairParts(units, w, p) && FairParts(units, w, q)
    requires i < |p| && j < |p| && p[i] > q[i]
    ensures q[j] <= p[j]
  {
    assert Up(units, w, p, i) && !Up(units, w, q, i);
  }

  /**
   * A total and weights have one fair split: rounding every share down or up, the
   * largest remainders up and the earlier index first, and adding up to the total
   * leave no choice.
   */
  lemma OnlyOneIsFair(units: nat, w: seq<nat>, p: seq<nat>, q: seq<nat>)
    requires Sum(w) > 0 && FairParts(units, w, p) && FairParts(units, w, q)
    ensures p == q
  {
    if p != q {
      var i := LargerSomewhere(p, q);
      var j := LargerSomewhere(q, p);
      NoTrade(units, w, p, q, i, j);
    }
  }
}
