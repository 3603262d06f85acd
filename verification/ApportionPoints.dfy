/**
 * The sort and the loop of apportionPoints (src/modules/ai-credits/ai-credit.logic.ts),
 * and that they hand out exactly the split of module Apportionment.
 */
module ApportionPoints {
  import opened Common
  import opened Apportionment
  import opened FairSplit

  // ── The sorted order ──

  ghost predicate Within(order: seq<nat>, n: nat) {
    forall k :: 0 <= k < |order| ==> order[k] < n
  }

  ghost predicate Sorted(r: seq<nat>, order: seq<nat>)
    requires Within(order, |r|)
  {
    forall j, k :: 0 <= j < k < |order| ==> Before(r, order[j], order[k])
  }

  ghost predicate ListsAll(order: seq<nat>, n: nat) {
    forall i: nat :: i < n ==> i in order
  }

  /** `order` lists every index once, each before those the comparator puts after it. */
  ghost predicate IsOrder(r: seq<nat>, order: seq<nat>) {
    Within(order, |r|) && Sorted(r, order) && ListsAll(order, |r|)
  }

  function Insert(r: seq<nat>, order: seq<nat>, i: nat): (t: seq<nat>)
    requires i < |r| && Within(order, |r|)
    ensures Within(t, |r|) && forall x :: x in t <==> x in order || x == i
  {
    if order == [] || Before(r, i, order[0]) then [i] + order
    else [order[0]] + Insert(r, order[1..], i)
  }

  /** The first `n` indices sorted by the comparator. */
  function Order(r: seq<nat>, n: nat): (order: seq<nat>)
    requires n <= |r|
    ensures Within(order, n) && ListsAll(order, n)
  {
    if n == 0 then []
    else
      var before := Order(r, n - 1);
      var order := Insert(r, before, n - 1);
      assert forall k :: 0 <= k < |order| ==> order[k] in order && (order[k] in before || order[k] == n - 1);
      order
  }

  lemma {:induction false} InsertKeepsSorted(r: seq<nat>, order: seq<nat>, i: nat)
    requires i < |r| && Within(order, |r|) && Sorted(r, order) && i !in order
    ensures Sorted(r, Insert(r, order, i))
  {
    if order != [] && !Before(r, i, order[0]) {
      var rest := Insert(r, order[1..], i);
      InsertKeepsSorted(r, order[1..], i);
      forall k | 0 <= k < |rest| ensures Before(r, order[0], rest[k]) {
        assert rest[k] in order[1..] || rest[k] == i;
        if rest[k] != i {
          var p :| 0 <= p < |order[1..]| && order[1..][p] == rest[k];
          assert order[p + 1] == rest[k];
        }
      }
    }
  }

  lemma {:induction false} OrderSorts(r: seq<nat>, n: nat)
    requires n <= |r|
    ensures Within(Order(r, n), |r|) && Sorted(r, Order(r, n))
  {
    if n > 0 {
      OrderSorts(r, n - 1);
      InsertKeepsSorted(r, Order(r, n - 1), n - 1);
    }
  }

  /** Sorting all indices gives an order. */
  lemma OrderIsOrder(r: seq<nat>)
    ensures IsOrder(r, Order(r, |r|))
  {
    OrderSorts(r, |r|);
  }

  // ── Places in the order ──

  function Indices(n: nat): (s: set<nat>)
    ensures |s| == n && forall i: nat :: i in s <==> i < n
  {
    if n == 0 then {} else Indices(n - 1) + {n - 1}
  }

  lemma PrefixSize(order: seq<nat>, k: nat)
    requires NoDuplicates(order) && k <= |order|
    ensures |Elements(order[..k])| == k
  {
    if k > 0 {
      PrefixSize(order, k - 1);
      assert order[..k] == order[..k - 1] + [order[k - 1]];
      assert Elements(order[..k]) == Elements(order[..k - 1]) + {order[k - 1]};
    } else {
      assert Elements(order[..k]) == {};
    }
  }

  lemma SortedOnce(r: seq<nat>, order: seq<nat>)
    requires IsOrder(r, order)
    ensures NoDuplicates(order) && |order| == |r|
  {
    forall i, j | 0 <= i < j < |order| ensures order[i] != order[j] { assert Before(r, order[i], order[j]); }
    PrefixSize(order, |order|);
    assert order[..|order|] == order;
    assert Elements(order) == Indices(|r|);
  }

  /** Position k of the order has exactly k indices ahead of it. */
  lemma PlaceInOrder(r: seq<nat>, order: seq<nat>, k: nat)
    requires IsOrder(r, order) && k < |order|
    ensures |Ahead(r, order[k])| == k
  {
    SortedOnce(r, order);
    forall i: nat | i < |r| ensures i in Ahead(r, order[k]) <==> i in order[..k] {
      assert i in order;
      var p :| 0 <= p < |order| && order[p] == i;
      if p < k { assert order[..k][p] == i; }
      if k < p { assert Before(r, order[k], order[p]); }
    }
    assert Ahead(r, order[k]) == Elements(order[..k]);
    PrefixSize(order, k);
  }

  // ── Handing out the rest ──

  /** One unit more for each of the first `k` indices of the order. */
  function Topped(f: seq<nat>, order: seq<nat>, k: nat): (t: seq<nat>)
    requires k <= |order| && Within(order, |f|)
    ensures |t| == |f|
  {
    if k == 0 then f
    else
      var t := Topped(f, order, k - 1);
      t[order[k - 1] := t[order[k - 1]] + 1]
  }

  lemma {:induction false} SumUpdate(s: seq<nat>, i: nat)
    requires i < |s|
    ensures Sum(s[i := s[i] + 1]) == Sum(s) + 1
  {
    var n := |s| - 1;
    var t := s[i := s[i] + 1];
    if i == n {
      assert t[..n] == s[..n];
    } else {
      assert t[..n] == s[..n][i := s[i] + 1];
      SumUpdate(s[..n], i);
    }
  }

  lemma {:induction false} ToppedSum(f: seq<nat>, order: seq<nat>, k: nat)
    requires k <= |order| && Within(order, |f|)
    ensures Sum(Topped(f, order, k)) == Sum(f) + k
  {
    if k > 0 {
      ToppedSum(f, order, k - 1);
      SumUpdate(Topped(f, order, k - 1), order[k - 1]);
    }
  }

  lemma {:induction false} ToppedAt(f: seq<nat>, order: seq<nat>, k: nat, p: nat)
    requires k <= |order| && Within(order, |f|)
    requires NoDuplicates(order) && p < |order|
    ensures Topped(f, order, k)[order[p]] == f[order[p]] + if p < k then 1 else 0
  {
    if k > 0 { ToppedAt(f, order, k - 1, p); }
  }

  /** Going down the order rounds up exactly those with few enough ahead of them. */
  lemma ToppedIsRounded(f: seq<nat>, r: seq<nat>, order: seq<nat>, rest: nat)
    requires |f| == |r| && IsOrder(r, order) && rest <= |order|
    ensures Topped(f, order, rest) == AllRounded(f, r, rest)
  {
    SortedOnce(r, order);
    forall i: nat | i < |f| ensures Topped(f, order, rest)[i] == Rounded(f, r, rest, i) {
      assert i in order;
      var p: nat :| p < |order| && order[p] == i;
      ToppedAt(f, order, rest, p);
      PlaceInOrder(r, order, p);
    }
  }

  /** There is an index for every unit of the rest. */
  lemma RestFits(units: nat, w: seq<nat>)
    requires Sum(w) > 0
    ensures 0 <= Rest(units, Floors(Shares(units, w), Sum(w))) <= |w|
  {
    var r := Remainders(Shares(units, w), Sum(w));
    RestIsSmall(units, w);
    SubsetSize(Positive(r), Indices(|r|));
  }

  /** The parts add up to the total. */
  lemma PartsAddUp(units: nat, w: seq<nat>)
    requires Sum(w) > 0
    ensures Sum(Parts(units, w)) == units
  {
    var a, m := Shares(units, w), Sum(w);
    var f, r := Floors(a, m), Remainders(a, m);
    OrderIsOrder(r);
    var order := Order(r, |r|);
    SortedOnce(r, order);
    RestFits(units, w);
    ToppedIsRounded(f, r, order, Rest(units, f));
    ToppedSum(f, order, Rest(units, f));
  }

  // ── apportionPoints ──

  /** A negative total splits like nothing. */
  function Units(total: int): nat { if total > 0 then total else 0 }

  function Numbers(p: seq<nat>): (parts: seq<Option<nat>>)
    ensures |parts| == |p| && forall i :: 0 <= i < |p| ==> parts[i] == Some(p[i])
  {
    seq(|p|, i requires 0 <= i < |p| => Some(p[i]))
  }

  /** Everything to the first part: what happens when no weight counts. */
  function AllToFirst(units: nat, n: nat): (p: seq<nat>)
    ensures |p| == n
  {
    seq(n, i => if i == 0 then units else 0)
  }

  /** What apportionPoints returns, in tenths; None is the source's null. */
  function Apportioned(total: Option<int>, raw: seq<int>): (parts: seq<Option<nat>>)
    ensures |parts| == |raw|
  {
    match total
    case None => seq(|raw|, _ => None)
    case Some(t) =>
      var w := Weights(raw);
      if Sum(w) == 0 then Numbers(AllToFirst(Units(t), |raw|)) else Numbers(Parts(Units(t), w))
  }

  /** The sum of the parts that are numbers. */
  function Total(parts: seq<Option<nat>>): nat {
    if parts == [] then 0
    else Total(parts[..|parts| - 1]) + match parts[|parts| - 1] { case Some(p) => p case None => 0 }
  }

  lemma {:induction false} TotalOfNumbers(p: seq<nat>)
    ensures Total(Numbers(p)) == Sum(p)
  {
    if p != [] {
      assert Numbers(p)[..|p| - 1] == Numbers(p[..|p| - 1]);
      TotalOfNumbers(p[..|p| - 1]);
    }
  }

  lemma {:induction false} AllToFirstAddsUp(units: nat, n: nat)
    requires n > 0
    ensures Sum(AllToFirst(units, n)) == units
  {
    var p := AllToFirst(units, n);
    assert p[..n - 1] == AllToFirst(units, n - 1);
    if n > 1 { AllToFirstAddsUp(units, n - 1); }
  }

  /**
   * Without a total every part is null; with one, and at least one weight, the
   * parts are numbers that add up to the total (to nothing when it is negative).
   */
  lemma ApportionedAddsUp(total: Option<int>, raw: seq<int>)
    ensures var parts := Apportioned(total, raw);
      && (forall i :: 0 <= i < |parts| ==> (parts[i].None? <==> total.None?))
      && (total.Some? && raw != [] ==> Total(parts) == Units(total.value))
  {
    if total.Some? && raw != [] {
      var w, units := Weights(raw), Units(total.value);
      if Sum(w) == 0 {
        AllToFirstAddsUp(units, |raw|);
        TotalOfNumbers(AllToFirst(units, |raw|));
      } else {
        PartsAddUp(units, w);
        TotalOfNumbers(Parts(units, w));
      }
    }
  }

  lemma PartsAreFair(units: nat, w: seq<nat>)
    requires Sum(w) > 0
    ensures FairParts(units, w, Parts(units, w))
  {
    PartsAddUp(units, w);
    PartsRoundShares(units, w);
    PartsRoundUpTheLargest(units, w);
  }

  /** The answer for a total is the fair split of it over the weights, and so the only fair one. */
  lemma ApportionedIsFair(total: int, raw: seq<int>)
    ensures Fair(Max(0, total), raw, Apportioned(Some(total), raw))
  {
    var w, parts := Weights(raw), Apportioned(Some(total), raw);
    if Sum(w) > 0 {
      PartsAreFair(Max(0, total), w);
      assert Values(parts) == Parts(Max(0, total), w);
    }
  }

  /**
   * Said of the answer itself, weight by weight: one that is not positive gets nothing, a larger
   * one never less, and of two equal ones the earlier at least as much and at most one tenth more.
   */
  lemma ApportionedToWeights(total: int, raw: seq<int>, i: nat, j: nat)
    requires i < |raw| && j < |raw| && Sum(Weights(raw)) > 0
    ensures var p := Values(Apportioned(Some(total), raw));
      && (raw[i] <= 0 ==> p[i] == 0)
      && (raw[i] > raw[j] ==> p[i] >= p[j])
      && (raw[i] == raw[j] && i < j ==> p[j] <= p[i] <= p[j] + 1)
  {
    var w := Weights(raw);
    if w[i] == 0 { NoShareNoPart(Units(total), w, i); }
    if w[j] == 0 { NoShareNoPart(Units(total), w, j); }
    if w[i] > w[j] { LargerWeightIsNotBehind(Units(total), w, i, j); }
    if w[i] == w[j] && i < j { EqualWeightsAreClose(Units(total), w, i, j); }
  }

  /** The loop: one unit to each index of the order while any is left. */
  method HandOut(parts: array<nat>, order: seq<nat>, units: nat, ghost r: seq<nat>)
    requires |r| == parts.Length && IsOrder(r, order)
    requires 0 <= Rest(units, parts[..]) <= |order|
    modifies parts
    ensures parts[..] == AllRounded(old(parts[..]), r, Rest(units, old(parts[..])))
  {
    ghost var f := parts[..];
    var rest := Rest(units, parts[..]);
    var index := 0;
    while rest > 0 && index < |order|
      invariant 0 <= index <= |order| && rest == Rest(units, f) - index && rest >= 0
      invariant parts[..] == Topped(f, order, index)
    {
      parts[order[index]] := parts[order[index]] + 1;
      index, rest := index + 1, rest - 1;
    }
    ToppedIsRounded(f, r, order, index);
  }

  method ApportionPoints(total: Option<int>, raw: seq<int>) returns (result: seq<Option<nat>>)
    ensures result == Apportioned(total, raw)
    ensures if total.Some? then Fair(Max(0, total.value), raw, result) else forall p :: p in result ==> p.None?
  {
    if total.Some? { ApportionedIsFair(total.value, raw); }
    if total == None {
      return seq(|raw|, _ => None);
    }
    if |raw| == 0 {
      return [];
    }
    var units := Units(total.value);
    var weights := Weights(raw);
    var sum := Sum(weights);
    if sum <= 0 {
      return Numbers(AllToFirst(units, |raw|));
    }
    var exact := Shares(units, weights);
    var floors := Floors(exact, sum);
    var parts := new nat[|floors|](i requires 0 <= i < |floors| => floors[i]);
    assert parts[..] == floors;
    var remainders := Remainders(exact, sum);
    var order := Order(remainders, |remainders|);
    OrderIsOrder(remainders);
    SortedOnce(remainders, order);
    RestFits(units, weights);
    HandOut(parts, order, units, remainders);
    result := Numbers(parts[..]);
  }
}
