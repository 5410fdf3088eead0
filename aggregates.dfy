/**
 * The reductions of bignumber.js that the page applies to a group's
 * numbers: `BigNumber.min`, `BigNumber.max` and `BigNumber.sum`. Their
 * arguments are exact decimals, modelled as `real`.
 */
module Aggregates {

  /**
   * `BigNumber.min(v0, v1, ...)`: starts from the first value and takes
   * each later value that is smaller than the one held so far.
   */
  function Min(values: seq<real>): (m: real)
    requires |values| > 0
    ensures m in values
    ensures forall i :: 0 <= i < |values| ==> m <= values[i]
  {
    if |values| == 1 then values[0]
    else
      var held, next := Min(values[..|values| - 1]), values[|values| - 1];
      if held > next then next else held
  }

  /**
   * `BigNumber.max(v0, v1, ...)`: starts from the first value and takes
   * each later value that is larger than the one held so far.
   */
  function Max(values: seq<real>): (m: real)
    requires |values| > 0
    ensures m in values
    ensures forall i :: 0 <= i < |values| ==> values[i] <= m
  {
    if |values| == 1 then values[0]
    else
      var held, next := Max(values[..|values| - 1]), values[|values| - 1];
      if held < next then next else held
  }

  /** `BigNumber.sum(v0, v1, ...)`: the values added left to right, exactly. */
  function Sum(values: seq<real>): (total: real)
  {
    if values == [] then 0.0 else Sum(values[..|values| - 1]) + values[|values| - 1]
  }

  /** A sum of values none of which is negative is not negative and is at least each of them. */
  lemma {:induction false} SumOfNonNegative(values: seq<real>)
    requires forall i :: 0 <= i < |values| ==> values[i] >= 0.0
    ensures Sum(values) >= 0.0
    ensures forall i :: 0 <= i < |values| ==> values[i] <= Sum(values)
  {
    if values != [] {
      var init := values[..|values| - 1];
      SumOfNonNegative(init);
      assert forall i :: 0 <= i < |init| ==> init[i] == values[i];
    }
  }

  /** The bounds of one value are that value. */
  lemma {:induction false} BoundsOfOne(v: real)
    ensures Min([v]) == v && Max([v]) == v
  {
  }

  /** The two bounds are equal exactly when all the values are equal. */
  lemma BoundsEqualIffAllEqual(values: seq<real>)
    requires |values| > 0
    ensures Min(values) == Max(values) <==>
      forall i, j :: 0 <= i < |values| && 0 <= j < |values| ==> values[i] == values[j]
  {
    var lo, hi := Min(values), Max(values);
    if lo != hi {
      var i :| 0 <= i < |values| && values[i] == lo;
      var j :| 0 <= j < |values| && values[j] == hi;
      assert values[i] != values[j];
    }
  }
}
