/**
 * The percentages a fade passes through: from the current reading, one point at a time
 * towards the target, ending on the target.
 */
module Fading {

  /** `abs(target - current)`, the number of steps (and the sleep's divisor). */
  function Dist(current: int, target: int): nat {
    if current <= target then target - current else current - target
  }

  /** `1 if current < target else -1` */
  function Step(current: int, target: int): int {
    if current < target then 1 else -1
  }

  /** Every percentage written while fading from current to target, in the order written. */
  function FadePath(current: int, target: int): (path: seq<int>)
    ensures |path| == Dist(current, target)
    decreases Dist(current, target)
  {
    if current == target then []
    else [current + Step(current, target)] + FadePath(current + Step(current, target), target)
  }

  /** A fade that moves at all ends exactly on the target. */
  lemma {:induction false} FadePathEndsAtTarget(current: int, target: int)
    requires current != target
    ensures FadePath(current, target)[|FadePath(current, target)| - 1] == target
    decreases Dist(current, target)
  {
    var next := current + Step(current, target);
    if next != target {
      FadePathEndsAtTarget(next, target);
    }
  }

  /** A fade that has not arrived takes one step and continues from there. */
  lemma FadePathUnfold(current: int, target: int)
    requires current != target
    ensures FadePath(current, target) == [current + Step(current, target)] + FadePath(current + Step(current, target), target)
  {
  }

  /** The loop's view of a fade: the points already walked, then the rest from where it stands. */
  lemma FadePathAdvance(start: int, target: int, walked: seq<int>, current: int)
    requires current != target
    requires FadePath(start, target) == walked + FadePath(current, target)
    ensures FadePath(start, target)
         == (walked + [current + Step(current, target)]) + FadePath(current + Step(current, target), target)
  {
    FadePathUnfold(current, target);
    SeqAssoc(walked, [current + Step(current, target)], FadePath(current + Step(current, target), target));
  }

  lemma SeqAssoc(a: seq<int>, b: seq<int>, c: seq<int>)
    ensures a + (b + c) == (a + b) + c
  {
  }

  /** The i-th percentage written is i + 1 steps from the start. */
  lemma {:induction false} FadePathAt(current: int, target: int, i: int)
    requires 0 <= i < Dist(current, target)
    ensures FadePath(current, target)[i] == current + Step(current, target) * (i + 1)
    decreases Dist(current, target)
  {
    if i > 0 {
      var next := current + Step(current, target);
      FadePathAt(next, target, i - 1);
      assert Step(next, target) == Step(current, target);
    }
  }

  /**
   * The percentages move strictly towards the target, never go past it, and stay within
   * the range spanned by the start and the target.
   */
  lemma FadePathMonotone(current: int, target: int)
    ensures current < target ==> forall i, j :: 0 <= i < j < |FadePath(current, target)| ==>
      FadePath(current, target)[i] < FadePath(current, target)[j]
    ensures current > target ==> forall i, j :: 0 <= i < j < |FadePath(current, target)| ==>
      FadePath(current, target)[i] > FadePath(current, target)[j]
    ensures current < target ==> forall i :: 0 <= i < |FadePath(current, target)| ==>
      current < FadePath(current, target)[i] <= target
    ensures current > target ==> forall i :: 0 <= i < |FadePath(current, target)| ==>
      target <= FadePath(current, target)[i] < current
  {
    var path := FadePath(current, target);
    forall i | 0 <= i < |path| ensures path[i] == current + Step(current, target) * (i + 1) {
      FadePathAt(current, target, i);
    }
  }
}
