# ABSE — Adaptive Baseline Score Evaluator, modelled in Dafny

The evaluator is the per-participant reputation tracker that the chained-HotStuff
consensus engine uses. It keeps a bounded FIFO window of per-round score
vectors. When the window is already full, each `update` evicts the oldest
vector into the *reference* vector. Every `update` also recomputes a scalar
*baseline* `r * (2f + 1) / (3f + 1)` from the round counter `r` and the fault
tolerance `f`.

`generate` zero-pads the vote information `info` to the length of the newest
window entry and returns their elementwise sum. `judge(j)` trusts everyone
while the reference vector is empty. That holds until the first eviction, and
again whenever an empty score vector is evicted. Otherwise it trusts
participant `j` exactly when `ref_s[j]` is strictly above the baseline.

The model is functional. An `Evaluator` is an immutable datatype and each
operation returns the next state. The files are:

- `vectors.dfy` (module `Vectors`): score vectors, zero-padding, and pairwise sum.
- `abse.dfy` (module `Abse`): the state, `New`, `Update`, `Generate`, `Judge`,
  `AdvanceRound`, and the baseline formula.
- `abse_runs.dfy` (module `AbseRuns`): the evaluator driven by a sequence of
  protocol operations, each applied by the run step `Apply`. It proves the sliding-window, eviction, warm-up and
  round-counter properties over any run.
- `abse_examples.dfy` (module `AbseExamples`): the source's unit scenarios as
  lemmas on concrete states.

Modelling decisions:

- `f64` becomes `real`, `i32` becomes `int` and `usize` becomes `nat`.
- The panics of the Rust implementation become `Failure` results:
  - `generate` on an empty window gives `EmptyWindow`.
  - `judge` past the end of a non-empty reference vector gives `IndexOutOfRange`.
- `generate` returns a `Step`, which is the next state paired with the outcome.
  On failure the state is returned unchanged.
- The source's `new` accepts a capacity of 0, and the first `update` then panics
  when it pops an empty queue (src/abse.rs:41-42). The model's `New` refuses
  capacity 0 with `ZeroCapacity` instead. `Update` requires exactly the
  condition under which the pop cannot panic (`size > 0` or a non-empty window).
- The source never changes `r` itself. Its tests assign the field directly. The
  model has an explicit `AdvanceRound`, and runs contain a `NextRound` operation.
- `update` checks `len >= size`, not `len == size`. The model keeps `>=`. In
  every valid state (`|window| <= size`) the two agree.
- The commented-out assertion in `test_abse_update` (src/abse.rs:91) expects a
  baseline of 2.25. The formula gives 3 * 5 / 7 = 15/7 for `r = 3, f = 2`, and
  `AbseExamples.UpdateExample` proves 15/7.

## Model

| member | source | states |
|---|---|---|
| Vectors.PadZeros | src/abse.rs:32-33 | resizing `info` up to length n keeps the old entries as a prefix and fills the rest with zeros |
| Vectors.ZipAdd | src/abse.rs:36 | the zipped sum has the length of the shorter vector and entry i is a[i] + b[i] |
| Vectors.PaddedSum | src/abse.rs:32-36 | padding a to the length of b and then summing gives, at every index of b, the zero-extended a plus b |
| Abse.Baseline | src/abse.rs:46 | baseline * (3f+1) == r * (2f+1); for r, f >= 0 the baseline lies in [2r/3, r], strictly above 2r/3 when r > 0 |
| Abse.New | src/abse.rs:15-25 | a fresh evaluator has round 0, empty window, info and reference, baseline 0 and the given capacity; capacity 0 is refused |
| Abse.Update | src/abse.rs:40-47 | the window grows by one until full, then keeps length size; a full window evicts its front into the reference and appends s; otherwise the reference is kept; the new baseline satisfies the formula and its bounds; round, info and size are unchanged |
| Abse.Generate | src/abse.rs:27-38 | empty window gives EmptyWindow; info longer than the newest vector gives LengthMismatch; both leave the state unchanged; on success the result has the newest vector's length with entry i equal to zero-extended info[i] + rear[i]; info becomes its old contents followed by zeros; nothing else changes |
| Abse.Judge | src/abse.rs:49-55 | empty reference gives true for every index; otherwise true exactly when ref[j] > baseline (strict), and an index past the end gives IndexOutOfRange |
| Abse.AdvanceRound | src/abse.rs:5 | the round counter increases by one and nothing else changes |
| AbseRuns.Apply | src/abse.rs:27-47 | one protocol step keeps the state valid and the capacity; a round advance or a generate leaves the window and the reference vector untouched |
| AbseRuns.Run | src/abse.rs:27-47 | any sequence of operations keeps the state valid (window within capacity) and keeps the capacity |
| AbseRuns.RunExtendsInfo | src/abse.rs:30-34 | over any run the vote information is never shortened or rewritten: its old contents stay a prefix |
| AbseRuns.UpdateSummarises | src/abse.rs:40-44 | one update appends its vector to the history and keeps the window equal to its last size entries and the reference equal to the entry before them |
| AbseRuns.ApplySummarises | src/abse.rs:27-47 | any single operation keeps that summary; only an update extends the history |
| AbseRuns.RunHistory | src/abse.rs:40-44 | after any run, the window is the last size entries of (initial window ++ recorded vectors) and the reference is the entry just before them, or unchanged if nothing was evicted |
| AbseRuns.RunRounds | src/abse.rs:40-47 | after any run the round counter has moved by exactly the number of explicit round advances |
| AbseRuns.FreshRun | src/abse.rs:15-44 | from a fresh evaluator, the window length is min(recorded, size), the window holds the last size recorded vectors, and the reference is the vector recorded size+1 from the end (empty before that) |
| AbseRuns.WarmUpTrustsEveryone | src/abse.rs:49-55 | while at most size vectors were recorded since construction, judge trusts every index |
| AbseRuns.SteadyStateVerdict | src/abse.rs:49-55 | once more than size vectors were recorded, the window is full; if the vector recorded size+1 from the end is non-empty, judge(j) is true exactly when its entry j is strictly above the baseline, and IndexOutOfRange past its end; if that vector is empty, judge trusts every index again |
| AbseRuns.GenerateIdempotent | src/abse.rs:30-37 | a second generate right after a successful one returns the same vector and the same state |
| AbseExamples.NewExample | src/abse.rs:63-67 | a capacity-5 evaluator has size 5 and an empty window |
| AbseExamples.GenerateExample | src/abse.rs:70-77 | info [1,2] with newest vector [2,3,4] gives [3,5,4] |
| AbseExamples.GenerateErrorExamples | src/abse.rs:28-31 | generate on an empty window and with over-long info are refused |
| AbseExamples.UpdateExample | src/abse.rs:81-95 | with capacity 2, the reference becomes [1,2,3] and then [4,5,6]; the window becomes [[4,5,6],[7,8,9]]; the baseline is 15/7 at round 3 |
| AbseExamples.JudgeExample | src/abse.rs:49-55 | reference [1,2,3] with baseline 2 gives false, false, true, then IndexOutOfRange; an empty reference trusts any index |

## Left out

- IEEE-754 rounding: scores, `f` and the baseline are exact reals.
- Abse.Update: requires `3f + 1 != 0`. At `f = -1/3` the source divides by zero and gets an infinity or NaN baseline, which reals cannot express.
- The round counter's 32-bit width: `AdvanceRound` does not model overflow past `i32::MAX`.
- The field `s` (src/abse.rs:6) is never read or written after construction, so it is not modelled.
- `test_abse_judge` (src/abse.rs:98-105): its asserted `false` verdicts are not encoded. Its reference assignment is commented out, so on its state (empty reference, baseline 2, capacity 2) the code returns `true` for every index. The second ensures of `AbseExamples.JudgeExample` states that answer.
- Panics are not modelled as aborts. Each becomes an error result, or a precondition where noted above.
- The surrounding consensus protocol is not part of this model.
