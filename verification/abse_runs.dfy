/**
 The evaluator driven round by round: a run applies a sequence of operations
 (record a score vector, advance the round, generate a candidate) to a state.
 The lemmas here describe the state reached after any run in terms of the
 operations alone: the window holds the last `size` recorded vectors, the
 reference vector is the one recorded just before them, and everyone is
 trusted until the first eviction.
 */
module AbseRuns {
  import opened Vectors
  import opened Abse

  /** One step of the surrounding protocol. */
  datatype Op =
    | Record(scores: ScoreVector, f: real)   // update with this round's scores and fault tolerance
    | NextRound                              // the protocol advances the round counter
    | Candidate                              // generate a candidate vector (its value is discarded here)

  /** An update's fault-tolerance value must leave the baseline's divisor non-zero. */
  predicate WellFormed(op: Op)
  {
    op.Record? ==> 3.0 * op.f + 1.0 != 0.0
  }

  predicate AllWellFormed(ops: seq<Op>)
  {
    forall i :: 0 <= i < |ops| ==> WellFormed(ops[i])
  }

  function Min(x: int, y: int): int
  {
    if x <= y then x else y
  }

  /** One protocol step: only a recorded vector touches the window or the reference vector. */
  function Apply(a: Evaluator, op: Op): (a': Evaluator)
    requires Valid(a)
    requires WellFormed(op)
    ensures Valid(a')
    ensures a'.size == a.size
    ensures !op.Record? ==> a'.window == a.window && a'.refScores == a.refScores
  {
    match op
    case Record(s, f) => Update(a, s, f)
    case NextRound => AdvanceRound(a)
    case Candidate => Generate(a).state
  }

  /**
   The state after applying `ops` in order. Every state on the way is valid
   and the capacity never changes.
   */
  function Run(a: Evaluator, ops: seq<Op>): (a': Evaluator)
    requires Valid(a)
    requires AllWellFormed(ops)
    ensures Valid(a')
    ensures a'.size == a.size
    decreases |ops|
  {
    if ops == [] then a
    else Apply(Run(a, ops[..|ops| - 1]), ops[|ops| - 1])
  }

  /** The score vectors recorded by `ops`, in order. */
  function Recorded(ops: seq<Op>): seq<ScoreVector>
    decreases |ops|
  {
    if ops == [] then []
    else
      var last := ops[|ops| - 1];
      Recorded(ops[..|ops| - 1]) + (if last.Record? then [last.scores] else [])
  }

  /** The number of round advances in `ops`. */
  function Rounds(ops: seq<Op>): nat
    decreases |ops|
  {
    if ops == [] then 0
    else Rounds(ops[..|ops| - 1]) + (if ops[|ops| - 1].NextRound? then 1 else 0)
  }

  lemma AllWellFormedPrefix(ops: seq<Op>)
    requires AllWellFormed(ops) && ops != []
    ensures AllWellFormed(ops[..|ops| - 1])
  {
    var init := ops[..|ops| - 1];
    forall i | 0 <= i < |init|
      ensures WellFormed(init[i])
    {
      assert init[i] == ops[i];
    }
  }

  /**
   The window is the last `size` entries of the history `h`, and the reference
   vector is the entry just before them, or `ref0` while `h` fits the window.
   */
  predicate Summarises(a: Evaluator, h: seq<ScoreVector>, ref0: ScoreVector)
  {
    && a.window == h[|h| - Min(|h|, a.size)..]
    && a.refScores == (if |h| > a.size then h[|h| - a.size - 1] else ref0)
  }

  /** Recording one vector appends it to the history and keeps the summary. */
  lemma UpdateSummarises(b: Evaluator, s: ScoreVector, f: real, h0: seq<ScoreVector>, ref0: ScoreVector)
    requires Valid(b)
    requires 3.0 * f + 1.0 != 0.0
    requires Summarises(b, h0, ref0)
    ensures Summarises(Update(b, s, f), h0 + [s], ref0)
  {
    var b' := Update(b, s, f);
    var h := h0 + [s];
    if |h0| >= b.size {
      assert |b.window| == b.size;
      assert b'.window == b.window[1..] + [s];
      assert h[|h| - b.size..] == h0[|h0| - b.size + 1..] + [s];
      assert h[|h| - b.size - 1] == h0[|h0| - b.size];
    } else {
      assert b.window == h0;
      assert b'.window == h;
      assert h[|h| - |h|..] == h;
    }
  }

  /** One operation keeps the summary, with the recorded vector (if any) appended to the history. */
  lemma ApplySummarises(b: Evaluator, op: Op, h0: seq<ScoreVector>, ref0: ScoreVector)
    requires Valid(b)
    requires WellFormed(op)
    requires Summarises(b, h0, ref0)
    ensures Summarises(Apply(b, op), h0 + (if op.Record? then [op.scores] else []), ref0)
  {
    match op
    case Record(s, f) =>
      UpdateSummarises(b, s, f, h0, ref0);
    case NextRound =>
      assert h0 + [] == h0;
      SameWindowSummarises(b, Apply(b, op), h0, ref0);
    case Candidate =>
      assert h0 + [] == h0;
      SameWindowSummarises(b, Apply(b, op), h0, ref0);
  }

  /** The summary depends only on the window, the reference vector and the capacity. */
  lemma SameWindowSummarises(b: Evaluator, b': Evaluator, h: seq<ScoreVector>, ref0: ScoreVector)
    requires Summarises(b, h, ref0)
    requires b'.window == b.window && b'.refScores == b.refScores && b'.size == b.size
    ensures Summarises(b', h, ref0)
  {
  }

  /**
   Sliding window and eviction over a whole run. Let `h` be the initial window
   followed by every recorded vector. Afterwards the window is the last
   `size` entries of `h` (all of `h` while it is shorter), and the reference
   vector is the entry of `h` just before them, or unchanged if nothing was
   evicted.
   */
  lemma {:induction false} RunHistory(a: Evaluator, ops: seq<Op>)
    requires Valid(a)
    requires AllWellFormed(ops)
    ensures Summarises(Run(a, ops), a.window + Recorded(ops), a.refScores)
    decreases |ops|
  {
    if ops == [] {
      assert a.window + Recorded(ops) == a.window;
      assert a.window[|a.window| - |a.window|..] == a.window;
    } else {
      var init := ops[..|ops| - 1];
      var op := ops[|ops| - 1];
      AllWellFormedPrefix(ops);
      RunHistory(a, init);
      var tail := if op.Record? then [op.scores] else [];
      ApplySummarises(Run(a, init), op, a.window + Recorded(init), a.refScores);
      assert Recorded(ops) == Recorded(init) + tail;
      assert a.window + Recorded(ops) == (a.window + Recorded(init)) + tail;
      assert Run(a, ops) == Apply(Run(a, init), op);
    }
  }

  /** The round counter only moves by explicit advances. */
  lemma {:induction false} RunRounds(a: Evaluator, ops: seq<Op>)
    requires Valid(a)
    requires AllWellFormed(ops)
    ensures Run(a, ops).round == a.round + Rounds(ops)
    decreases |ops|
  {
    if ops != [] {
      AllWellFormedPrefix(ops);
      RunRounds(a, ops[..|ops| - 1]);
    }
  }

  /**
   The vote information is only ever extended: whatever it held before a run
   is still a prefix of it afterwards.
   */
  lemma {:induction false} RunExtendsInfo(a: Evaluator, ops: seq<Op>)
    requires Valid(a)
    requires AllWellFormed(ops)
    ensures |a.info| <= |Run(a, ops).info|
    ensures Run(a, ops).info[..|a.info|] == a.info
    decreases |ops|
  {
    if ops != [] {
      var init := ops[..|ops| - 1];
      AllWellFormedPrefix(ops);
      RunExtendsInfo(a, init);
      var b := Run(a, init);
      var c := Run(a, ops);
      assert c == Apply(b, ops[|ops| - 1]);
      assert |b.info| <= |c.info| && c.info[..|b.info|] == b.info;
      assert c.info[..|a.info|] == c.info[..|b.info|][..|a.info|];
    }
  }

  /** A fresh evaluator summarises the recorded vectors with an empty initial reference. */
  lemma FreshSummary(size: nat, ops: seq<Op>)
    requires size > 0
    requires AllWellFormed(ops)
    ensures New(size).Success?
    ensures Summarises(Run(New(size).value, ops), Recorded(ops), [])
    ensures Run(New(size).value, ops).round == Rounds(ops)
  {
    var a := Evaluator(0, [], [], [], 0.0, size);
    assert New(size) == Success(a);
    var ss := Recorded(ops);
    RunHistory(a, ops);
    assert a.window + ss == ss;
    RunRounds(a, ops);
  }

  /**
   Starting from a fresh evaluator of capacity `size`, after any run the window
   holds the last `size` recorded vectors and never more than `size`; the
   reference vector is the vector recorded `size + 1` places from the end, or
   empty while fewer than `size + 1` vectors were recorded.
   */
  lemma FreshRun(size: nat, ops: seq<Op>)
    requires size > 0
    requires AllWellFormed(ops)
    ensures New(size).Success?
    ensures var ss := Recorded(ops);
            var a' := Run(New(size).value, ops);
            && |a'.window| == Min(|ss|, size)
            && a'.window == ss[|ss| - Min(|ss|, size)..]
            && a'.refScores == (if |ss| > size then ss[|ss| - size - 1] else [])
            && a'.round == Rounds(ops)
  {
    FreshSummary(size, ops);
    var ss := Recorded(ops);
    var a' := Run(New(size).value, ops);
    assert a'.size == size;
    assert |ss[|ss| - Min(|ss|, size)..]| == Min(|ss|, size);
  }

  /**
   Default trust during warm-up: as long as no more than `size` vectors were
   recorded since construction, every participant index is trusted.
   */
  lemma WarmUpTrustsEveryone(size: nat, ops: seq<Op>, j: nat)
    requires size > 0
    requires AllWellFormed(ops)
    requires |Recorded(ops)| <= size
    ensures New(size).Success?
    ensures Judge(Run(New(size).value, ops), j) == Success(true)
  {
    FreshRun(size, ops);
  }

  /**
   After warm-up, participant `j` is trusted exactly when its score in the
   vector recorded `size + 1` places from the end is strictly above the
   current baseline (that vector being long enough). If that evicted vector
   is itself empty, the reference is empty again and every index is trusted.
   */
  lemma SteadyStateVerdict(size: nat, ops: seq<Op>, j: nat)
    requires size > 0
    requires AllWellFormed(ops)
    requires |Recorded(ops)| > size
    ensures New(size).Success?
    ensures var ss := Recorded(ops);
            var evicted := ss[|ss| - size - 1];
            var a' := Run(New(size).value, ops);
            && |a'.window| == size
            && (evicted != [] && j < |evicted| ==>
                  (Judge(a', j) == Success(true) <==> evicted[j] > a'.baseline))
            && (evicted != [] && j >= |evicted| ==> Judge(a', j) == Failure(IndexOutOfRange))
            && (evicted == [] ==> Judge(a', j) == Success(true))
  {
    var ss := Recorded(ops);
    var a' := Run(New(size).value, ops);
    assert |a'.window| == size && a'.refScores == ss[|ss| - size - 1] by {
      FreshRun(size, ops);
    }
    VerdictAgainst(a', ss[|ss| - size - 1], j);
  }

  /** The verdict on a state whose reference vector is `evicted`. */
  lemma VerdictAgainst(a: Evaluator, evicted: ScoreVector, j: nat)
    requires a.refScores == evicted
    ensures evicted != [] && j < |evicted| ==> (Judge(a, j) == Success(true) <==> evicted[j] > a.baseline)
    ensures evicted != [] && j >= |evicted| ==> Judge(a, j) == Failure(IndexOutOfRange)
    ensures evicted == [] ==> Judge(a, j) == Success(true)
  {
  }

  /**
   Generating twice in a row gives the same vector and the same state: the
   first call already padded the vote information to the newest vector's length.
   */
  lemma GenerateIdempotent(a: Evaluator)
    requires Generate(a).out.Success?
    ensures Generate(Generate(a).state) == Generate(a)
  {
    var g := Generate(a);
    var rear := a.window[|a.window| - 1];
    assert g.state.window == a.window;
    assert g.state.info == PadZeros(a.info, |rear|);
    PadZerosIdempotent(a.info, |rear|);
  }

  lemma PadZerosIdempotent(v: ScoreVector, n: nat)
    requires |v| <= n
    ensures PadZeros(PadZeros(v, n), n) == PadZeros(v, n)
  {
    PadZerosNoop(PadZeros(v, n));
  }
}
