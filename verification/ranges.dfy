/** Python's `range(start, stop, step)` for a non-zero step. */
module Ranges {

  /** Python's documented length of a range: max(0, ceil((stop - start) / step)). */
  function RangeLength(start: int, stop: int, step: int): nat
    requires step != 0
  {
    if step > 0 then (if start < stop then (stop - start + step - 1) / step else 0)
    else (if start > stop then (start - stop - step - 1) / -step else 0)
  }

  /**
    The values `range(start, stop, step)` yields, in the order it yields them:
    the arithmetic progression from `start` that stays strictly on the near
    side of `stop` and stops at the first value that would not.
   */
  function PyRange(start: int, stop: int, step: int): (r: seq<int>)
    requires step != 0
    ensures forall i :: 0 <= i < |r| ==> r[i] == start + i * step
    ensures step > 0 ==> forall i :: 0 <= i < |r| ==> start <= r[i] < stop
    ensures step < 0 ==> forall i :: 0 <= i < |r| ==> stop < r[i] <= start
    ensures step > 0 ==> start + |r| * step >= stop
    ensures step < 0 ==> start + |r| * step <= stop
    ensures step > 0 ==> forall i, j :: 0 <= i < j < |r| ==> r[i] < r[j]
    ensures step < 0 ==> forall i, j :: 0 <= i < j < |r| ==> r[i] > r[j]
  {
    var n := RangeLength(start, stop, step);
    ProgressionOfRange(start, stop, step);
    seq(n, i requires 0 <= i < n => start + i * step)
  }

  /** The facts about `start + i * step` the range's contract rests on. */
  lemma ProgressionOfRange(start: int, stop: int, step: int)
    requires step != 0
    ensures var n := RangeLength(start, stop, step);
            && (step > 0 ==> forall i :: 0 <= i < n ==> start <= start + i * step < stop)
            && (step < 0 ==> forall i :: 0 <= i < n ==> stop < start + i * step <= start)
            && (step > 0 ==> start + n * step >= stop)
            && (step < 0 ==> start + n * step <= stop)
            && (step > 0 ==> forall i, j :: 0 <= i < j ==> start + i * step < start + j * step)
            && (step < 0 ==> forall i, j :: 0 <= i < j ==> start + i * step > start + j * step)
  {
    if step > 0 {
      Progression(stop - start, step);
    } else {
      Progression(start - stop, -step);
      forall i: int
        ensures i * step == -(i * -step)
      {
      }
    }
  }

  /**
    For a positive step `b` and distance `d`, the first `ceil(d / b)`
    multiples of `b` stay below `d`, the next one does not, and multiples
    grow with the multiplier.
   */
  lemma Progression(d: int, b: int)
    requires 0 < b
    ensures var n := if d > 0 then (d + b - 1) / b else 0;
            && n * b >= d
            && (forall i :: 0 <= i < n ==> 0 <= i * b < d)
            && (forall i, j :: 0 <= i < j ==> i * b < j * b)
  {
    var n := if d > 0 then (d + b - 1) / b else 0;
    LengthBounds(d, b);
    forall i, j | 0 <= i < j
      ensures i * b < j * b
    {
      MulStrict(b, i, j);
    }
    forall i | 0 <= i < n
      ensures 0 <= i * b < d
    {
      if i < n - 1 {
        MulStrict(b, i, n - 1);
      }
      if 0 < i {
        MulPositive(i, b);
      }
    }
  }

  /** The ceiling quotient `n` of `d` by `b` is the least `n` with `n * b >= d`. */
  lemma LengthBounds(d: int, b: int)
    requires 0 < b
    ensures var n := if d > 0 then (d + b - 1) / b else 0;
            && n * b >= d
            && (n > 0 ==> (n - 1) * b < d)
  {
    if d > 0 {
      var n := (d + b - 1) / b;
      var m := (d + b - 1) % b;
      assert d + b - 1 == n * b + m && 0 <= m < b;
      assert (n - 1) * b == n * b - b;
    }
  }

  lemma MulStrict(b: int, i: int, j: int)
    requires 0 < b && i < j
    ensures i * b < j * b
  {
    assert j * b - i * b == (j - i) * b;
    MulPositive(j - i, b);
  }

  lemma MulPositive(x: int, b: int)
    requires 0 < x && 0 < b
    ensures 0 < x * b
  {
  }

}
