/**
  The percentage step: each kept count as a share of the kept total (not of
  the grand total). Shares are exact reals; the script's rounding to two
  decimals is not modelled.
 */
module Shares {
  import opened Config

  /** `sum(sizes)`. */
  function Sum(s: seq<nat>): nat
    decreases |s|
  {
    if s == [] then 0 else s[0] + Sum(s[1..])
  }

  function RealSum(s: seq<real>): real
    decreases |s|
  {
    if s == [] then 0.0 else s[0] + RealSum(s[1..])
  }

  /** One size as a percentage of the total. */
  function Share(size: nat, total: nat): real
    requires total > 0
  {
    (size as real / total as real) * 100.0
  }

  /** A share is the size's proportion of the total, in percent: it is not
      negative, follows the order of the sizes, and stays within 100 while the
      size stays within the total. */
  lemma ShareFacts(a: nat, b: nat, total: nat)
    requires total > 0
    ensures Share(a, total) * (total as real) == 100.0 * (a as real)
    ensures 0.0 <= Share(a, total)
    ensures a <= b ==> Share(a, total) <= Share(b, total)
    ensures a <= total ==> Share(a, total) <= 100.0
  {
    var t := total as real;
    DivMul(a as real, t);
    DivMul(t, t);
    Cancel(t / t, 1.0, t);
    DivMonotone(a as real, b as real, t);
    DivMonotone(a as real, t, t);
  }

  /** The share of every size, in order. */
  function Scale(sizes: seq<nat>, total: nat): (r: seq<real>)
    requires total > 0
    ensures |r| == |sizes|
    ensures forall i :: 0 <= i < |sizes| ==> r[i] == Share(sizes[i], total)
    decreases |sizes|
  {
    if sizes == [] then [] else [Share(sizes[0], total)] + Scale(sizes[1..], total)
  }

  /** No single size exceeds the sum. */
  lemma {:induction false} ElementAtMostSum(s: seq<nat>, i: nat)
    requires i < |s|
    ensures s[i] <= Sum(s)
    decreases |s|
  {
    if i > 0 {
      ElementAtMostSum(s[1..], i - 1);
    }
  }

  /** The sum is zero exactly when every size is zero. */
  lemma {:induction false} SumZero(s: seq<nat>)
    ensures Sum(s) == 0 <==> forall i :: 0 <= i < |s| ==> s[i] == 0
    decreases |s|
  {
    if s != [] {
      SumZero(s[1..]);
      assert forall i :: 1 <= i < |s| ==> s[i] == s[1..][i - 1];
    }
  }

  /** Multiplying by a positive factor can be undone. */
  lemma Cancel(x: real, y: real, t: real)
    requires t > 0.0 && x * t == y * t
    ensures x == y
  {
  }

  lemma DivMul(a: real, t: real)
    requires t > 0.0
    ensures (a / t) * t == a
  {
  }

  lemma DivMonotone(a: real, b: real, t: real)
    requires t > 0.0
    ensures 0.0 <= a ==> 0.0 <= a / t
    ensures a <= b ==> a / t <= b / t
  {
  }

  /** The shares of some sizes add up to the share of their sum. */
  lemma {:induction false} ScaleSum(sizes: seq<nat>, total: nat)
    requires total > 0
    ensures RealSum(Scale(sizes, total)) == Share(Sum(sizes), total)
    decreases |sizes|
  {
    if sizes != [] {
      var t := total as real;
      var rest := Scale(sizes[1..], total);
      ScaleSum(sizes[1..], total);
      var a, b := sizes[0] as real, Sum(sizes[1..]) as real;
      assert Scale(sizes, total) == [Share(sizes[0], total)] + rest;
      Cancel(a / t + b / t, (a + b) / t, t);
    }
  }

  /** Shares taken of the sizes' own sum add up to exactly 100. */
  lemma SharesOfSumAddUp(sizes: seq<nat>)
    requires Sum(sizes) > 0
    ensures RealSum(Scale(sizes, Sum(sizes))) == 100.0
  {
    var total := Sum(sizes);
    ScaleSum(sizes, total);
    ShareFacts(total, total, total);
    Cancel(Share(total, total), 100.0, total as real);
  }

  /** `percentages`. Python divides by `total` only when there is a size to
      divide, so an empty list gives an empty result, while a non-empty list
      of zero counts raises ZeroDivisionError. */
  function Percentages(sizes: seq<nat>): (r: Result<seq<real>>)
    ensures r.Err? <==> |sizes| > 0 && forall i :: 0 <= i < |sizes| ==> sizes[i] == 0
    ensures r.Ok? ==> |r.value| == |sizes|
    ensures r.Ok? && |sizes| > 0 ==> RealSum(r.value) == 100.0
  {
    SumZero(sizes);
    if sizes == [] then Ok([])
    else if Sum(sizes) == 0 then Err(ZeroDivision)
    else
      ScaleSum(sizes, Sum(sizes));
      SharesOfSumAddUp(sizes);
      Ok(Scale(sizes, Sum(sizes)))
  }

  /** Each percentage is the share of its size in the kept total; `ShareFacts`
      says what a share is. */
  lemma PercentagesAreShares(sizes: seq<nat>)
    requires Percentages(sizes).Ok? && sizes != []
    ensures Sum(sizes) > 0
    ensures forall i :: 0 <= i < |sizes| ==> Percentages(sizes).value[i] == Share(sizes[i], Sum(sizes))
  {
  }

  /** Every percentage lies between 0 and 100. */
  lemma PercentagesBounded(sizes: seq<nat>)
    requires Percentages(sizes).Ok?
    ensures forall i :: 0 <= i < |sizes| ==> 0.0 <= Percentages(sizes).value[i] <= 100.0
  {
    if sizes != [] {
      PercentagesAreShares(sizes);
      var p := Percentages(sizes).value;
      forall i | 0 <= i < |sizes|
        ensures 0.0 <= p[i] <= 100.0
      {
        ElementAtMostSum(sizes, i);
        ShareFacts(sizes[i], sizes[i], Sum(sizes));
      }
    }
  }

  /** A larger count never gets a smaller percentage. */
  lemma PercentagesMonotone(sizes: seq<nat>)
    requires Percentages(sizes).Ok?
    ensures forall i, j :: 0 <= i < |sizes| && 0 <= j < |sizes| && sizes[i] <= sizes[j] ==>
              Percentages(sizes).value[i] <= Percentages(sizes).value[j]
  {
    if sizes != [] {
      PercentagesAreShares(sizes);
      var p := Percentages(sizes).value;
      forall i, j | 0 <= i < |sizes| && 0 <= j < |sizes| && sizes[i] <= sizes[j]
        ensures p[i] <= p[j]
      {
        ShareFacts(sizes[i], sizes[j], Sum(sizes));
      }
    }
  }
}
