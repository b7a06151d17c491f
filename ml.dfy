/**
 * The evaluation half of `logistic_test` in `ml.py`: the confusion-matrix
 * counts of predicted against actual labels, and the accuracy, precision and
 * recall computed from them.  The fitted classifier is not modelled: the
 * predicted labels are an input.  Labels are integers; the positive class is
 * 1 and the negative class 0.
 */
module Ml {
  import opened Wrappers

  /** The four counters `tp, tn, fp, fn`. */
  datatype Confusion = Confusion(tp: nat, tn: nat, fp: nat, fn: nat)

  function Total(c: Confusion): nat
  {
    c.tp + c.tn + c.fp + c.fn
  }

  predicate Binary(x: int)
  {
    x == 0 || x == 1
  }

  /** The number of pairs `zip` yields: it stops at the shorter sequence. */
  function Pairs(predicted: seq<int>, actual: seq<int>): (n: nat)
    ensures n <= |predicted| && n <= |actual|
    ensures n == |predicted| || n == |actual|
  {
    if |predicted| <= |actual| then |predicted| else |actual|
  }

  /**
   * The four `if`s of the loop body for one pair: a pair of two binary labels
   * moves exactly one counter by one, any other pair moves none.
   */
  function Tally(c: Confusion, predicted: int, actual: int): (r: Confusion)
    ensures Binary(predicted) && Binary(actual) ==> Total(r) == Total(c) + 1
    ensures !(Binary(predicted) && Binary(actual)) ==> r == c
    ensures c.tp <= r.tp && c.tn <= r.tn && c.fp <= r.fp && c.fn <= r.fn
  {
    var c := if predicted == 1 && actual == 1 then c.(tp := c.tp + 1) else c;
    var c := if predicted == 0 && actual == 0 then c.(tn := c.tn + 1) else c;
    var c := if predicted == 1 && actual == 0 then c.(fp := c.fp + 1) else c;
    if predicted == 0 && actual == 1 then c.(fn := c.fn + 1) else c
  }

  /** The counters after the loop has seen the first `n` pairs. */
  function ConfusionOf(predicted: seq<int>, actual: seq<int>, n: nat): Confusion
    requires n <= Pairs(predicted, actual)
  {
    if n == 0 then Confusion(0, 0, 0, 0)
    else Tally(ConfusionOf(predicted, actual, n - 1), predicted[n - 1], actual[n - 1])
  }

  /** The counters after the whole loop. */
  function Confusions(predicted: seq<int>, actual: seq<int>): Confusion
  {
    ConfusionOf(predicted, actual, Pairs(predicted, actual))
  }

  /** The positions among the first `n` pairs where the pair is `(p, a)`. */
  function PositionsOf(predicted: seq<int>, actual: seq<int>, n: nat, p: int, a: int): set<nat>
    requires n <= Pairs(predicted, actual)
  {
    set k: nat | k < n && predicted[k] == p && actual[k] == a
  }

  /** The number of zipped pairs equal to `(p, a)`. */
  function CountPairs(predicted: seq<int>, actual: seq<int>, p: int, a: int): nat
  {
    |PositionsOf(predicted, actual, Pairs(predicted, actual), p, a)|
  }

  /**
   * The counting loop of `logistic_test`: walks the zipped labels and bumps
   * the counter each pair selects.
   */
  method CountOutcomes(predicted: seq<int>, actual: seq<int>) returns (c: Confusion)
    ensures c == Confusions(predicted, actual)
  {
    var tp, tn, fp, fn := 0, 0, 0, 0;
    var n := Pairs(predicted, actual);
    var k := 0;
    while k < n
      invariant 0 <= k <= n
      invariant Confusion(tp, tn, fp, fn) == ConfusionOf(predicted, actual, k)
    {
      var p, a := predicted[k], actual[k];
      if p == 1 && a == 1 {
        tp := tp + 1;
      }
      if p == 0 && a == 0 {
        tn := tn + 1;
      }
      if p == 1 && a == 0 {
        fp := fp + 1;
      }
      if p == 0 && a == 1 {
        fn := fn + 1;
      }
      k := k + 1;
    }
    c := Confusion(tp, tn, fp, fn);
  }

  /** One more pair adds its position to exactly the set of its own kind. */
  lemma PositionsStep(predicted: seq<int>, actual: seq<int>, n: nat, p: int, a: int)
    requires 0 < n <= Pairs(predicted, actual)
    ensures |PositionsOf(predicted, actual, n, p, a)|
         == |PositionsOf(predicted, actual, n - 1, p, a)|
            + (if predicted[n - 1] == p && actual[n - 1] == a then 1 else 0)
  {
    var before := PositionsOf(predicted, actual, n - 1, p, a);
    var after := PositionsOf(predicted, actual, n, p, a);
    if predicted[n - 1] == p && actual[n - 1] == a {
      assert after == before + {n - 1};
    } else {
      assert after == before;
    }
  }

  /**
   * Each counter is the number of pairs of its kind: `tp` counts (1, 1),
   * `tn` (0, 0), `fp` (1, 0) and `fn` (0, 1).
   */
  lemma {:induction false} ConfusionOfCounts(predicted: seq<int>, actual: seq<int>, n: nat)
    requires n <= Pairs(predicted, actual)
    ensures var c := ConfusionOf(predicted, actual, n);
      && c.tp == |PositionsOf(predicted, actual, n, 1, 1)|
      && c.tn == |PositionsOf(predicted, actual, n, 0, 0)|
      && c.fp == |PositionsOf(predicted, actual, n, 1, 0)|
      && c.fn == |PositionsOf(predicted, actual, n, 0, 1)|
  {
    if n == 0 {
      assert PositionsOf(predicted, actual, n, 1, 1) == {};
      assert PositionsOf(predicted, actual, n, 0, 0) == {};
      assert PositionsOf(predicted, actual, n, 1, 0) == {};
      assert PositionsOf(predicted, actual, n, 0, 1) == {};
    } else {
      ConfusionOfCounts(predicted, actual, n - 1);
      PositionsStep(predicted, actual, n, 1, 1);
      PositionsStep(predicted, actual, n, 0, 0);
      PositionsStep(predicted, actual, n, 1, 0);
      PositionsStep(predicted, actual, n, 0, 1);
    }
  }

  lemma ConfusionsCount(predicted: seq<int>, actual: seq<int>)
    ensures var c := Confusions(predicted, actual);
      && c.tp == CountPairs(predicted, actual, 1, 1)
      && c.tn == CountPairs(predicted, actual, 0, 0)
      && c.fp == CountPairs(predicted, actual, 1, 0)
      && c.fn == CountPairs(predicted, actual, 0, 1)
  {
    ConfusionOfCounts(predicted, actual, Pairs(predicted, actual));
  }

  /**
   * At most one counter moves per pair, so the counters sum to at most the
   * number of pairs, and to exactly that number if and only if every pair
   * holds two binary labels.
   */
  lemma {:induction false} ConfusionOfTotal(predicted: seq<int>, actual: seq<int>, n: nat)
    requires n <= Pairs(predicted, actual)
    ensures Total(ConfusionOf(predicted, actual, n)) <= n
    ensures Total(ConfusionOf(predicted, actual, n)) == n <==>
      forall k :: 0 <= k < n ==> Binary(predicted[k]) && Binary(actual[k])
  {
    if n > 0 {
      ConfusionOfTotal(predicted, actual, n - 1);
      var prev := ConfusionOf(predicted, actual, n - 1);
      var p, a := predicted[n - 1], actual[n - 1];
      assert ConfusionOf(predicted, actual, n) == Tally(prev, p, a);
      if Binary(p) && Binary(a) {
        assert (forall k :: 0 <= k < n ==> Binary(predicted[k]) && Binary(actual[k]))
           <==> (forall k :: 0 <= k < n - 1 ==> Binary(predicted[k]) && Binary(actual[k]));
      } else {
        assert Total(ConfusionOf(predicted, actual, n)) == Total(prev);
      }
    }
  }

  lemma ConfusionsTotal(predicted: seq<int>, actual: seq<int>)
    ensures Total(Confusions(predicted, actual)) <= Pairs(predicted, actual)
    ensures Total(Confusions(predicted, actual)) == Pairs(predicted, actual) <==>
      forall k :: 0 <= k < Pairs(predicted, actual) ==> Binary(predicted[k]) && Binary(actual[k])
  {
    ConfusionOfTotal(predicted, actual, Pairs(predicted, actual));
  }

  /**
   * `(tp + tn) / (tp + tn + fp + fn)` under true division; `None` where the
   * source divides by zero, which is exactly when no pair was counted.
   */
  function Accuracy(c: Confusion): (r: Option<real>)
    ensures r.None? <==> Total(c) == 0
    ensures r.Some? ==> 0.0 <= r.value <= 1.0 && r.value * Total(c) as real == (c.tp + c.tn) as real
  {
    if Total(c) == 0 then None else Some((c.tp + c.tn) as real / Total(c) as real)
  }

  /** `tp / (tp + fp)`, or 0 when nothing was predicted positive. */
  function Precision(c: Confusion): (r: real)
    ensures 0.0 <= r <= 1.0
    ensures c.tp + c.fp > 0 ==> r * (c.tp + c.fp) as real == c.tp as real
    ensures r == 0.0 <==> c.tp == 0
    ensures r == 1.0 <==> c.tp > 0 && c.fp == 0
  {
    if c.tp + c.fp == 0 then 0.0 else c.tp as real / (c.tp + c.fp) as real
  }

  /** `tp / (tp + fn)`, or 0 when no actual positive was seen. */
  function Recall(c: Confusion): (r: real)
    ensures 0.0 <= r <= 1.0
    ensures c.tp + c.fn > 0 ==> r * (c.tp + c.fn) as real == c.tp as real
    ensures r == 0.0 <==> c.tp == 0
    ensures r == 1.0 <==> c.tp > 0 && c.fn == 0
  {
    if c.tp + c.fn == 0 then 0.0 else c.tp as real / (c.tp + c.fn) as real
  }

  /**
   * `logistic_test` from the predictions on: counts the outcomes and returns
   * the accuracy, or `None` where the source raises on an empty count.
   */
  method LogisticTest(predicted: seq<int>, actual: seq<int>) returns (accuracy: Option<real>)
    ensures accuracy == Accuracy(Confusions(predicted, actual))
    ensures accuracy.None? <==> Total(Confusions(predicted, actual)) == 0
  {
    var c := CountOutcomes(predicted, actual);
    var total := c.tp + c.tn + c.fp + c.fn;
    if total == 0 {
      return None;
    }
    accuracy := Some((c.tp + c.tn) as real / total as real);
  }
}
