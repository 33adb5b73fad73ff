/**
 The evaluator's unit scenarios, stated on concrete states. States that the
 scenarios build by assigning fields directly are written here as datatype
 values.
 */
module AbseExamples {
  import opened Abse

  /** A fresh evaluator of capacity 5 has that capacity and an empty window. */
  lemma NewExample()
    ensures New(5).Success?
    ensures New(5).value.size == 5 && |New(5).value.window| == 0
    ensures New(0) == Failure(ZeroCapacity)
  {
  }

  /** Vote information [1, 2] against the newest vector [2, 3, 4] gives [3, 5, 4] and pads the information to [1, 2, 0]. */
  lemma GenerateExample()
    ensures var a := Evaluator(0, [], [[1.0, 2.0, 3.0], [2.0, 3.0, 4.0]], [1.0, 2.0], 0.0, 2);
            var g := Generate(a);
            g.out == Success([3.0, 5.0, 4.0]) && g.state.info == [1.0, 2.0, 0.0]
  {
    var a := Evaluator(0, [], [[1.0, 2.0, 3.0], [2.0, 3.0, 4.0]], [1.0, 2.0], 0.0, 2);
    var g := Generate(a);
    assert g.out.value == [3.0, 5.0, 4.0];
    assert g.state.info == [1.0, 2.0, 0.0];
  }

  /** Generating before anything was recorded, or with too long vote information, is refused. */
  lemma GenerateErrorExamples()
    ensures Generate(Evaluator(0, [], [], [], 0.0, 2)).out == Failure(EmptyWindow)
    ensures Generate(Evaluator(0, [], [[1.0]], [1.0, 2.0], 0.0, 2)).out == Failure(LengthMismatch)
  {
  }

  /**
   Capacity 2 holding [1,2,3] and [4,5,6] at round 3: recording [7,8,9] with
   f = 2 evicts [1,2,3] and sets the baseline to 3 * 5 / 7; at round 4 the
   next record evicts [4,5,6].
   */
  lemma UpdateExample()
    ensures var a0 := Evaluator(3, [], [[1.0, 2.0, 3.0], [4.0, 5.0, 6.0]], [], 0.0, 2);
            var a1 := Update(a0, [7.0, 8.0, 9.0], 2.0);
            var a2 := Update(AdvanceRound(a1), [1.0, 1.0, 1.0], 2.0);
            && a1.window == [[4.0, 5.0, 6.0], [7.0, 8.0, 9.0]]
            && a1.refScores == [1.0, 2.0, 3.0]
            && a1.baseline == 15.0 / 7.0
            && a2.refScores == [4.0, 5.0, 6.0]
            && a2.baseline == 20.0 / 7.0
  {
  }

  /** Reference [1, 2, 3] against baseline 2: a score equal to the baseline is not trusted. */
  lemma JudgeExample()
    ensures var a := Evaluator(0, [1.0, 2.0, 3.0], [], [], 2.0, 2);
            && Judge(a, 0) == Success(false)
            && Judge(a, 1) == Success(false)
            && Judge(a, 2) == Success(true)
            && Judge(a, 3) == Failure(IndexOutOfRange)
    ensures Judge(Evaluator(0, [], [], [], 2.0, 2), 7) == Success(true)
  {
  }
}
