/**
 Participant-indexed score vectors and the two vector operations the evaluator
 uses: zero-padding to a target length, and the pairwise sum of two vectors
 truncated to the shorter one (an iterator `zip` followed by `+`).
 Scores are mathematical reals; IEEE-754 rounding is not modelled.
 */
module Vectors {

  /** One score per participant, indexed by participant id. */
  type ScoreVector = seq<real>

  /** `v` extended with zeros up to length `n` (a vector resize that only grows). */
  function PadZeros(v: ScoreVector, n: nat): (p: ScoreVector)
    requires |v| <= n
    ensures |p| == n
    ensures p[..|v|] == v
    ensures forall i :: |v| <= i < n ==> p[i] == 0.0
    decreases n
  {
    if n == |v| then v else PadZeros(v, n - 1) + [0.0]
  }

  /** Padding a vector that already has the target length changes nothing. */
  lemma PadZerosNoop(v: ScoreVector)
    ensures PadZeros(v, |v|) == v
  {
  }

  /** The value at index `i` of `v` read as if `v` were padded with zeros forever. */
  function ZeroExtendedAt(v: ScoreVector, i: nat): real
  {
    if i < |v| then v[i] else 0.0
  }

  /**
   Pairwise sum of `a` and `b`; like a `zip`, it stops at the end of the
   shorter vector.
   */
  function ZipAdd(a: ScoreVector, b: ScoreVector): (s: ScoreVector)
    ensures |s| == if |a| <= |b| then |a| else |b|
    ensures forall i :: 0 <= i < |s| ==> s[i] == a[i] + b[i]
  {
    if a == [] || b == [] then [] else [a[0] + b[0]] + ZipAdd(a[1..], b[1..])
  }

  /** Padding then summing: every index of `b` gets the zero-extended entry of `a` added. */
  lemma PaddedSum(a: ScoreVector, b: ScoreVector)
    requires |a| <= |b|
    ensures |ZipAdd(PadZeros(a, |b|), b)| == |b|
    ensures forall i :: 0 <= i < |b| ==> ZipAdd(PadZeros(a, |b|), b)[i] == ZeroExtendedAt(a, i) + b[i]
  {
    var p := PadZeros(a, |b|);
    forall i | 0 <= i < |b|
      ensures ZipAdd(p, b)[i] == ZeroExtendedAt(a, i) + b[i]
    {
      if i < |a| {
        assert p[..|a|][i] == p[i];
      }
    }
  }
}
