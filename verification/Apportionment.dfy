/**
 * Splitting a total of points by largest remainder
 * (apportionPoints of src/modules/ai-credits/ai-credit.logic.ts). Points are
 * tenths of a point and weights whole micro-USD, so the quotients are exact.
 */
module Apportionment {
  import opened Common

  function Sum(s: seq<nat>): nat {
    if s == [] then 0 else Sum(s[..|s| - 1]) + s[|s| - 1]
  }

  /** Weights that are not positive count as nothing. */
  function Weights(raw: seq<int>): (w: seq<nat>)
    ensures |w| == |raw| && forall i :: 0 <= i < |w| ==> w[i] == Max(0, raw[i])
  {
    seq(|raw|, i requires 0 <= i < |raw| => Max(0, raw[i]))
  }

  /** The exact shares, counted in sum-ths of a unit. */
  function Shares(units: nat, w: seq<nat>): (a: seq<nat>)
    ensures |a| == |w|
  {
    seq(|w|, i requires 0 <= i < |w| => units * w[i])
  }

  /** The whole units of each share, and what each share has beyond them. */
  function Floors(a: seq<nat>, m: nat): (f: seq<nat>)
    requires m > 0
    ensures |f| == |a|
  {
    seq(|a|, i requires 0 <= i < |a| => a[i] / m)
  }

  function Remainders(a: seq<nat>, m: nat): (r: seq<nat>)
    requires m > 0
    ensures |r| == |a|
  {
    seq(|a|, i requires 0 <= i < |a| => a[i] % m)
  }

  /** The comparator of the sort: a larger remainder first, then the lower index. */
  predicate Before(r: seq<nat>, i: nat, j: nat)
    requires i < |r| && j < |r|
  {
    r[i] > r[j] || (r[i] == r[j] && i < j)
  }

  /** Everyone who comes before `i`. */
  function Ahead(r: seq<nat>, i: nat): set<nat>
    requires i < |r|
  {
    set j: nat | j < |r| && Before(r, j, i)
  }

  // ── The split, without sorting ──

  /** A share is rounded down, and up when fewer than `rest` shares come before it. */
  function Rounded(f: seq<nat>, r: seq<nat>, rest: int, i: nat): nat
    requires i < |f| == |r|
  {
    f[i] + if |Ahead(r, i)| < rest then 1 else 0
  }

  function AllRounded(f: seq<nat>, r: seq<nat>, rest: int): (p: seq<nat>)
    requires |f| == |r|
    ensures |p| == |f| && forall i :: 0 <= i < |p| ==> p[i] == Rounded(f, r, rest, i)
  {
    seq(|f|, i requires 0 <= i < |f| => Rounded(f, r, rest, i))
  }

  /** Units left once every share is rounded down. */
  function Rest(units: nat, f: seq<nat>): int {
    units - Sum(f)
  }

  /** The parts of `units` for weights with a positive sum. */
  function Parts(units: nat, w: seq<nat>): (p: seq<nat>)
    requires Sum(w) > 0
    ensures |p| == |w|
  {
    var a := Shares(units, w);
    var f := Floors(a, Sum(w));
    AllRounded(f, Remainders(a, Sum(w)), Rest(units, f))
  }

  // ── Arithmetic ──

  lemma Distribute(a: nat, b: nat, c: nat)
    ensures a * (b + c) == a * b + a * c
  {
  }

  lemma DivMod(a: nat, m: nat)
    requires m > 0
    ensures a == m * (a / m) + a % m && 0 <= a % m < m
  {
  }

  lemma MulGrows(m: nat, x: nat, y: nat)
    requires x < y
    ensures m * x + m <= m * y
  {
    Distribute(m, x + 1, y - x - 1);
    Distribute(m, x, 1);
  }

  lemma DivGrows(a: nat, b: nat, m: nat)
    requires m > 0 && a <= b
    ensures a / m <= b / m && (a / m == b / m ==> b % m - a % m == b - a)
  {
    DivMod(a, m);
    DivMod(b, m);
    if b / m < a / m { MulGrows(m, b / m, a / m); }
  }

  // ── How much is left over ──

  lemma SumAppend(s: seq<nat>, x: nat)
    ensures Sum(s + [x]) == Sum(s) + x
  {
    assert (s + [x])[..|s|] == s;
  }

  /** The exact shares add up to the total. */
  lemma {:induction false} SharesAddUp(units: nat, w: seq<nat>)
    ensures Sum(Shares(units, w)) == units * Sum(w)
  {
    if w != [] {
      var n := |w| - 1;
      SharesAddUp(units, w[..n]);
      assert Shares(units, w)[..n] == Shares(units, w[..n]);
      Distribute(units, Sum(w[..n]), w[n]);
    }
  }

  /** Rounding down loses exactly the remainders. */
  lemma {:induction false} FloorsAndRemainders(a: seq<nat>, m: nat)
    requires m > 0
    ensures m * Sum(Floors(a, m)) + Sum(Remainders(a, m)) == Sum(a)
  {
    if a != [] {
      var n := |a| - 1;
      FloorsAndRemainders(a[..n], m);
      assert Floors(a, m)[..n] == Floors(a[..n], m);
      assert Remainders(a, m)[..n] == Remainders(a[..n], m);
      DivMod(a[n], m);
      Distribute(m, Sum(Floors(a[..n], m)), a[n] / m);
    }
  }

  /** The positions with a positive remainder. */
  function Positive(r: seq<nat>): set<nat> {
    set i: nat | i < |r| && r[i] > 0
  }

  /** Each positive remainder is short of a whole unit. */
  lemma {:induction false} RemaindersBounded(r: seq<nat>, m: nat)
    requires m > 0 && forall i :: 0 <= i < |r| ==> r[i] < m
    ensures Sum(r) + |Positive(r)| <= m * |Positive(r)|
  {
    if r != [] {
      var n := |r| - 1;
      RemaindersBounded(r[..n], m);
      if r[n] > 0 {
        assert Positive(r) == Positive(r[..n]) + {n};
        Distribute(m, |Positive(r[..n])|, 1);
      } else {
        assert Positive(r) == Positive(r[..n]);
      }
    }
  }

  lemma RestBounds(m: nat, units: nat, floors: nat, remainders: nat, p: nat)
    requires m > 0 && m * floors + remainders == m * units && remainders + p <= m * p
    ensures floors <= units && (units - floors < p || (units == floors && p == 0))
  {
    if units < floors { MulGrows(m, units, floors); }
    if floors < units {
      var rest := units - floors;
      Distribute(m, floors, rest);
      if p <= rest {
        if p < rest { MulGrows(m, p, rest); }
      }
    }
  }

  /**
   * What is left over is smaller than the number of shares that were rounded
   * down, or nothing when none was.
   */
  lemma RestIsSmall(units: nat, w: seq<nat>)
    requires Sum(w) > 0
    ensures var a, m := Shares(units, w), Sum(w);
      var p, rest := |Positive(Remainders(a, m))|, Rest(units, Floors(a, m));
      0 <= rest && (rest < p || (rest == 0 && p == 0))
  {
    SharesAddUp(units, w);
    RestOfShares(units, Shares(units, w), Sum(w));
  }

  lemma RestOfShares(units: nat, a: seq<nat>, m: nat)
    requires m > 0 && Sum(a) == units * m
    ensures var p, rest := |Positive(Remainders(a, m))|, Rest(units, Floors(a, m));
      0 <= rest && (rest < p || (rest == 0 && p == 0))
  {
    var r := Remainders(a, m);
    FloorsAndRemainders(a, m);
    forall i | 0 <= i < |r| ensures r[i] < m { DivMod(a[i], m); }
    RemaindersBounded(r, m);
    RestBounds(m, units, Sum(Floors(a, m)), Sum(r), |Positive(r)|);
  }

  // ── Each part ──

  lemma AheadGrows(r: seq<nat>, i: nat, j: nat)
    requires i < |r| && j < |r| && Before(r, i, j)
    ensures |Ahead(r, i)| < |Ahead(r, j)|
  {
    assert i in Ahead(r, j) && i !in Ahead(r, i);
    SubsetSize(Ahead(r, i), Ahead(r, j) - {i});
  }

  /** Without a remainder, a share is not rounded up. */
  lemma WholeShareIsKept(f: seq<nat>, r: seq<nat>, rest: int, i: nat)
    requires i < |f| == |r| && r[i] == 0
    requires rest <= |Positive(r)|
    ensures Rounded(f, r, rest, i) == f[i]
  {
    assert Positive(r) <= Ahead(r, i);
    SubsetSize(Positive(r), Ahead(r, i));
  }

  lemma RoundedDownOrUp(f: seq<nat>, r: seq<nat>, rest: int, i: nat)
    requires i < |f| == |r| && rest <= |Positive(r)|
    ensures var part := Rounded(f, r, rest, i); part == f[i] || (r[i] != 0 && part == f[i] + 1)
  {
    if r[i] == 0 { WholeShareIsKept(f, r, rest, i); }
  }

  /** Each part is the floor or the ceiling of its exact share units * w[i] / sum. */
  lemma PartIsFloorOrCeiling(units: nat, w: seq<nat>, i: nat)
    requires Sum(w) > 0 && i < |w|
    ensures var part, share, m := Parts(units, w)[i], Shares(units, w)[i], Sum(w);
      share == units * w[i] && (part == share / m || (share % m != 0 && part == share / m + 1))
  {
    var a, m := Shares(units, w), Sum(w);
    RestIsSmall(units, w);
    RoundedDownOrUp(Floors(a, m), Remainders(a, m), Rest(units, Floors(a, m)), i);
  }

  lemma NothingTimes(a: nat, b: nat)
    requires a == 0 || b == 0
    ensures a * b == 0
  {
  }

  /** So a share of nothing, whether the weight or the total is nothing, is a part of nothing. */
  lemma NoShareNoPart(units: nat, w: seq<nat>, i: nat)
    requires Sum(w) > 0 && i < |w| && (w[i] == 0 || units == 0)
    ensures Parts(units, w)[i] == 0
  {
    NothingTimes(units, w[i]);
    assert Shares(units, w)[i] == units * w[i] == 0;
    PartIsFloorOrCeiling(units, w, i);
  }

  /** The order of the shares is the order of floor and remainder. */
  lemma LargerShareIsNotBehind(a: seq<nat>, m: nat, rest: int, i: nat, j: nat)
    requires m > 0 && i < |a| && j < |a| && a[i] > a[j]
    ensures Rounded(Floors(a, m), Remainders(a, m), rest, i) >= Rounded(Floors(a, m), Remainders(a, m), rest, j)
  {
    DivGrows(a[j], a[i], m);
    var r := Remainders(a, m);
    if a[i] / m == a[j] / m {
      assert Before(r, i, j);
      AheadGrows(r, i, j);
    }
  }

  /** A larger weight never gets a smaller part. */
  lemma LargerWeightIsNotBehind(units: nat, w: seq<nat>, i: nat, j: nat)
    requires Sum(w) > 0 && i < |w| && j < |w| && w[i] > w[j]
    ensures Parts(units, w)[i] >= Parts(units, w)[j]
  {
    if units == 0 {
      NoShareNoPart(units, w, j);
    } else {
      var a := Shares(units, w);
      MulGrows(units, w[j], w[i]);
      LargerShareIsNotBehind(a, Sum(w), Rest(units, Floors(a, Sum(w))), i, j);
    }
  }

  lemma EqualSharesAreClose(f: seq<nat>, r: seq<nat>, rest: int, i: nat, j: nat)
    requires i < j < |f| == |r| && f[i] == f[j] && r[i] == r[j]
    ensures Rounded(f, r, rest, j) <= Rounded(f, r, rest, i) <= Rounded(f, r, rest, j) + 1
  {
    assert Before(r, i, j);
    AheadGrows(r, i, j);
  }

  /** Equal weights get parts at most one unit apart, the earlier one at least as much. */
  lemma EqualWeightsAreClose(units: nat, w: seq<nat>, i: nat, j: nat)
    requires Sum(w) > 0 && i < j < |w| && w[i] == w[j]
    ensures Parts(units, w)[j] <= Parts(units, w)[i] <= Parts(units, w)[j] + 1
  {
    var a, m := Shares(units, w), Sum(w);
    assert a[i] == a[j];
    EqualSharesAreClose(Floors(a, m), Remainders(a, m), Rest(units, Floors(a, m)), i, j);
  }
}
