/**
 The Adaptive Baseline Score Evaluator: a per-participant reputation tracker.
 It keeps a bounded FIFO window of per-round score vectors; once the window is
 full, each update evicts the oldest vector into the reference vector. Trust
 verdicts compare reference scores with a baseline computed from the round
 counter and a fault-tolerance value.

 The evaluator is an immutable value and every operation returns the next
 state. Generating from an empty window and judging past the end of the
 reference vector are `Failure` results rather than aborts.
 */
module Abse {
  import opened Vectors

  /** The ways an operation can refuse its input. */
  datatype Error =
    | ZeroCapacity      // construction with a window capacity of 0
    | EmptyWindow       // generate before any score vector was recorded
    | LengthMismatch    // vote information longer than the newest score vector
    | IndexOutOfRange   // judge past the end of a non-empty reference vector

  datatype Result<T> = Success(value: T) | Failure(error: Error)

  /**
   The evaluator state. `window` lists the recorded score vectors oldest
   first; `refScores` is the vector evicted last (empty before any eviction);
   `info` is the vote information that `Generate` adds to the newest vector.
   */
  datatype Evaluator = Evaluator(
    round: int,
    refScores: ScoreVector,
    window: seq<ScoreVector>,
    info: ScoreVector,
    baseline: real,
    size: nat)

  /** A state paired with the outcome of the operation that produced it. */
  datatype Step<T> = Step(state: Evaluator, out: Result<T>)

  /** What every reachable state satisfies: a positive capacity that the window respects, and a round counter that started at 0. */
  predicate Valid(a: Evaluator)
  {
    a.size > 0 && |a.window| <= a.size && a.round >= 0
  }

  /** Scores strictly above the baseline are trusted; the threshold ratio (2f+1)/(3f+1) lies in (2/3, 1] for f >= 0. */
  function Baseline(r: int, f: real): (b: real)
    requires 3.0 * f + 1.0 != 0.0
    ensures b * (3.0 * f + 1.0) == r as real * (2.0 * f + 1.0)
    ensures r >= 0 && f >= 0.0 ==> 0.0 <= b <= r as real
    ensures r >= 0 && f >= 0.0 ==> 2.0 * r as real <= 3.0 * b
    ensures r > 0 && f >= 0.0 ==> 2.0 * r as real < 3.0 * b
  {
    var b := (r as real * (2.0 * f + 1.0)) / (3.0 * f + 1.0);
    BaselineBounds(r, f, b);
    b
  }

  /** The bounds on the baseline, derived from its defining equation. */
  lemma BaselineBounds(r: int, f: real, b: real)
    requires 3.0 * f + 1.0 != 0.0
    requires b == (r as real * (2.0 * f + 1.0)) / (3.0 * f + 1.0)
    ensures b * (3.0 * f + 1.0) == r as real * (2.0 * f + 1.0)
    ensures r >= 0 && f >= 0.0 ==> 0.0 <= b <= r as real
    ensures r >= 0 && f >= 0.0 ==> 2.0 * r as real <= 3.0 * b
    ensures r > 0 && f >= 0.0 ==> 2.0 * r as real < 3.0 * b
  {
    var d := 3.0 * f + 1.0;
    var x := r as real;
    assert b * d == x * (2.0 * f + 1.0);
    if r >= 0 && f >= 0.0 {
      assert d >= 1.0;
      assert x * d - b * d == x * f;
      assert x * f >= 0.0;
      assert (x - b) * d >= 0.0;
      assert 0.0 <= b * d;
      assert 3.0 * b * d - 2.0 * x * d == x;
      assert (3.0 * b - 2.0 * x) * d == x;
    }
  }

  /**
   A fresh evaluator with window capacity `size`: round 0, empty window,
   empty vote information, empty reference vector, baseline 0.
   A capacity of 0 is refused.
   */
  function New(size: nat): (r: Result<Evaluator>)
    ensures r.Success? <==> size > 0
    ensures r.Failure? ==> r.error == ZeroCapacity
    ensures r.Success? ==> Valid(r.value) && r.value.size == size
    ensures r.Success? ==> r.value.window == [] && r.value.refScores == [] && r.value.info == []
    ensures r.Success? ==> r.value.round == 0 && r.value.baseline == 0.0
  {
    if size == 0 then Failure(ZeroCapacity)
    else Success(Evaluator(0, [], [], [], 0.0, size))
  }

  /**
   Records the score vector `s` for this round with fault-tolerance value `f`.
   When the window has reached its capacity, its oldest vector is evicted into
   the reference vector first. The baseline is recomputed from the current
   round counter and `f`.
   The precondition is exactly what keeps the eviction from popping an empty
   window, plus a non-zero divisor in the baseline.
   */
  function Update(a: Evaluator, s: ScoreVector, f: real): (a': Evaluator)
    requires a.size > 0 || |a.window| > 0
    requires 3.0 * f + 1.0 != 0.0
    // capacity: the window grows by one until it is full, then keeps its length
    ensures Valid(a) ==> Valid(a')
    ensures Valid(a) ==> |a'.window| == if |a.window| < a.size then |a.window| + 1 else a.size
    // FIFO: the newest vector is at the back; the evicted vector is the old front
    ensures |a'.window| > 0 && a'.window[|a'.window| - 1] == s
    ensures |a.window| >= a.size ==> a'.refScores == a.window[0] && a'.window == a.window[1..] + [s]
    ensures |a.window| < a.size ==> a'.refScores == a.refScores && a'.window == a.window + [s]
    // the baseline is a function of the round counter and `f` only
    ensures a'.baseline * (3.0 * f + 1.0) == a.round as real * (2.0 * f + 1.0)
    ensures a.round >= 0 && f >= 0.0 ==> 0.0 <= a'.baseline <= a.round as real
    // frame
    ensures a'.round == a.round && a'.info == a.info && a'.size == a.size
  {
    var evict := |a.window| >= a.size;
    a.(refScores := if evict then a.window[0] else a.refScores,
       window := (if evict then a.window[1..] else a.window) + [s],
       baseline := Baseline(a.round, f))
  }

  /**
   The candidate vector: the vote information, padded with zeros to the length
   of the newest recorded score vector, added to that vector. The padding is
   kept in the state. Fails, leaving the state unchanged, when nothing has been
   recorded or the vote information is longer than the newest vector.
   */
  function Generate(a: Evaluator): (r: Step<ScoreVector>)
    ensures a.window == [] ==> r == Step(a, Failure(EmptyWindow))
    ensures a.window != [] && |a.info| > |a.window[|a.window| - 1]| ==> r == Step(a, Failure(LengthMismatch))
    ensures r.out.Failure? ==> r.state == a
    ensures r.out.Success? <==> a.window != [] && |a.info| <= |a.window[|a.window| - 1]|
    ensures r.out.Success? ==>
      var rear := a.window[|a.window| - 1];
      && |r.out.value| == |rear|
      && (forall i :: 0 <= i < |rear| ==> r.out.value[i] == ZeroExtendedAt(a.info, i) + rear[i])
      && |r.state.info| == |rear|
      && r.state.info[..|a.info|] == a.info
      && (forall i :: |a.info| <= i < |rear| ==> r.state.info[i] == 0.0)
      && r.state == a.(info := r.state.info)
  {
    if a.window == [] then Step(a, Failure(EmptyWindow))
    else
      var rear := a.window[|a.window| - 1];
      if |a.info| > |rear| then Step(a, Failure(LengthMismatch))
      else
        var info := if |a.info| < |rear| then PadZeros(a.info, |rear|) else a.info;
        assert info == PadZeros(a.info, |rear|) by { PadZerosNoop(a.info); }
        PaddedSum(a.info, rear);
        Step(a.(info := info), Success(ZipAdd(info, rear)))
  }

  /**
   The trust verdict for participant `j`. While the reference vector is empty
   (before any eviction, or after an empty vector was evicted) everyone is
   trusted; otherwise a participant is trusted exactly when its reference
   score is strictly above the baseline. An index past the end of a non-empty
   reference vector is refused.
   */
  function Judge(a: Evaluator, j: nat): (r: Result<bool>)
    ensures a.refScores == [] ==> r == Success(true)
    ensures a.refScores != [] && j >= |a.refScores| ==> r == Failure(IndexOutOfRange)
    ensures r.Success? <==> a.refScores == [] || j < |a.refScores|
    ensures a.refScores != [] && j < |a.refScores| ==> (r == Success(true) <==> a.refScores[j] > a.baseline)
  {
    if a.refScores == [] then Success(true)
    else if j < |a.refScores| then Success(a.refScores[j] > a.baseline)
    else Failure(IndexOutOfRange)
  }

  /** Moves to the next round; nothing else changes. */
  function AdvanceRound(a: Evaluator): (a': Evaluator)
    ensures a'.round == a.round + 1
    ensures a' == a.(round := a'.round)
    ensures Valid(a) ==> Valid(a')
  {
    a.(round := a.round + 1)
  }
}
