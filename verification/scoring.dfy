/** Turning raw metrics into 0–10 scores, as `evaluate_function` and
    `evaluate_file` in `src/code_quality.py` do. Scores are exact reals;
    Python's `round(x, 1)` is modelled as rounding to the nearest tenth with
    ties to even. */
module Scoring {

  const MaxComplexity: nat := 10
  const MaxMethodLength: nat := 50
  const MaxWorkingMemory: nat := 8

  /** A whole number of tenths. */
  predicate IsTenths(r: real) {
    (r * 10.0).Floor as real == r * 10.0
  }

  /** The integer nearest to `y`, an exact tie going to the even one. */
  function NearestEven(y: real): (n: int)
    ensures n as real - 0.5 <= y <= n as real + 0.5
    ensures (y == n as real - 0.5 || y == n as real + 0.5) ==> n % 2 == 0
  {
    var k := y.Floor;
    var f := y - k as real;
    if f > 0.5 then k + 1
    else if f < 0.5 then k
    else if k % 2 == 0 then k
    else k + 1
  }

  /** `round(x, 1)`: the nearest multiple of 0.1, an exact tie going to the
      even multiple. */
  function Round1(x: real): (r: real)
    ensures IsTenths(r)
    ensures r - 0.05 <= x <= r + 0.05
    ensures (x == r - 0.05 || x == r + 0.05) ==> (r * 10.0).Floor % 2 == 0
  {
    var n := NearestEven(x * 10.0);
    assert (n as real / 10.0) * 10.0 == n as real;
    n as real / 10.0
  }

  /** Rounding leaves a value that already has one decimal unchanged. */
  lemma Round1Tenths(x: real)
    requires IsTenths(x)
    ensures Round1(x) == x
  {
    var m := (x * 10.0).Floor;
    var n := NearestEven(x * 10.0);
    assert -1 < n - m < 1;
  }

  /** Rounding never reverses an order. */
  lemma Round1Monotone(x: real, y: real)
    requires x <= y
    ensures Round1(x) <= Round1(y)
  {
    var a := NearestEven(x * 10.0);
    var b := NearestEven(y * 10.0);
    assert a <= b + 1;
    assert a <= b;
  }

  /** Rounding stays inside bounds that are themselves whole tenths. */
  lemma Round1Within(x: real, lo: real, hi: real)
    requires IsTenths(lo) && IsTenths(hi) && lo <= x <= hi
    ensures lo <= Round1(x) <= hi
  {
    Round1Tenths(lo);
    Round1Tenths(hi);
    Round1Monotone(lo, x);
    Round1Monotone(x, hi);
  }

  /** `max(0, 10 - (raw / MAX) * 10)`: a linear penalty from 10 down to 0. */
  function ComponentScore(raw: nat, max: nat): (r: real)
    requires max > 0
    ensures 0.0 <= r <= 10.0
    ensures r == 10.0 <==> raw == 0
    ensures r == 0.0 <==> raw >= max
  {
    var s := 10.0 - (raw as real / max as real) * 10.0;
    assert raw >= max <==> raw as real / max as real >= 1.0;
    if s > 0.0 then s else 0.0
  }

  /** A larger raw value never scores better. */
  lemma ComponentScoreAntitone(raw1: nat, raw2: nat, max: nat)
    requires max > 0 && raw1 <= raw2
    ensures ComponentScore(raw2, max) <= ComponentScore(raw1, max)
  {
    assert raw1 as real / max as real <= raw2 as real / max as real;
  }

  /** `0.4 * complexity + 0.3 * length + 0.3 * memory`, on the unrounded
      component scores. */
  function Weighted(c: real, l: real, m: real): real {
    c * 0.4 + l * 0.3 + m * 0.3
  }

  /** The overall score of one function from its three raw metrics,
      rounded to one decimal. */
  function FunctionScore(complexity: nat, length: nat, memory: nat): (r: real)
    ensures 0.0 <= r <= 10.0
    ensures IsTenths(r)
    ensures var w := Weighted(ComponentScore(complexity, MaxComplexity),
                              ComponentScore(length, MaxMethodLength),
                              ComponentScore(memory, MaxWorkingMemory));
            w - 0.05 <= r <= w + 0.05
    ensures complexity == 0 && length == 0 && memory == 0 ==> r == 10.0
  {
    var w := Weighted(ComponentScore(complexity, MaxComplexity),
                      ComponentScore(length, MaxMethodLength),
                      ComponentScore(memory, MaxWorkingMemory));
    Round1Within(w, 0.0, 10.0);
    Round1Tenths(10.0);
    Round1(w)
  }

  /** The overall score never increases when any raw metric grows. */
  lemma FunctionScoreAntitone(c1: nat, l1: nat, m1: nat, c2: nat, l2: nat, m2: nat)
    requires c1 <= c2 && l1 <= l2 && m1 <= m2
    ensures FunctionScore(c2, l2, m2) <= FunctionScore(c1, l1, m1)
  {
    ComponentScoreAntitone(c1, c2, MaxComplexity);
    ComponentScoreAntitone(l1, l2, MaxMethodLength);
    ComponentScoreAntitone(m1, m2, MaxWorkingMemory);
    Round1Monotone(
      Weighted(ComponentScore(c2, MaxComplexity), ComponentScore(l2, MaxMethodLength), ComponentScore(m2, MaxWorkingMemory)),
      Weighted(ComponentScore(c1, MaxComplexity), ComponentScore(l1, MaxMethodLength), ComponentScore(m1, MaxWorkingMemory)));
  }

  function Sum(s: seq<real>): real {
    if s == [] then 0.0 else s[0] + Sum(s[1..])
  }

  lemma {:induction false} SumBounds(s: seq<real>, lo: real, hi: real)
    requires forall i :: 0 <= i < |s| ==> lo <= s[i] <= hi
    ensures |s| as real * lo <= Sum(s) <= |s| as real * hi
  {
    if s != [] {
      SumBounds(s[1..], lo, hi);
    }
  }

  /** The arithmetic mean lies between any bounds of its values. */
  lemma MeanBounds(s: seq<real>, lo: real, hi: real)
    requires s != []
    requires forall i :: 0 <= i < |s| ==> lo <= s[i] <= hi
    ensures lo <= Sum(s) / |s| as real <= hi
  {
    SumBounds(s, lo, hi);
    var n := |s| as real;
    QuotientAtLeast(Sum(s), n, lo);
    QuotientAtMost(Sum(s), n, hi);
  }

  lemma QuotientAtLeast(a: real, b: real, c: real)
    requires b > 0.0 && a >= c * b
    ensures a / b >= c
  {
  }

  lemma QuotientAtMost(a: real, b: real, c: real)
    requires b > 0.0 && a <= c * b
    ensures a / b <= c
  {
  }

  lemma RoundedMeanBounds(scores: seq<real>)
    requires scores != []
    ensures (forall i :: 0 <= i < |scores| ==> 0.0 <= scores[i] <= 10.0) ==>
              0.0 <= Round1(Sum(scores) / |scores| as real) <= 10.0
  {
    if forall i :: 0 <= i < |scores| ==> 0.0 <= scores[i] <= 10.0 {
      MeanBounds(scores, 0.0, 10.0);
      Round1Within(Sum(scores) / |scores| as real, 0.0, 10.0);
    }
  }

  /** The file score: the rounded mean of the function scores, or 10.0 for
      a file without functions. */
  function FileScore(scores: seq<real>): (r: real)
    ensures scores == [] ==> r == 10.0
    ensures scores != [] ==> var mean := Sum(scores) / |scores| as real;
                             mean - 0.05 <= r <= mean + 0.05
    ensures (forall i :: 0 <= i < |scores| ==> 0.0 <= scores[i] <= 10.0) ==> 0.0 <= r <= 10.0
    ensures IsTenths(r)
  {
    if scores == [] then
      Round1Tenths(10.0);
      Round1(10.0)
    else
      var mean := Sum(scores) / |scores| as real;
      RoundedMeanBounds(scores);
      Round1(mean)
  }
}
