/**
 * The two slice-iterator adaptors the boards build their lines from,
 * `Iterator::skip` and `Iterator::step_by`, as functions on sequences,
 * and the lemmas that say which elements they yield.
 */
module Iters {

  /** `iter().skip(k)`: everything after the first `k` elements (nothing if there are fewer). */
  function Skip<T>(s: seq<T>, k: nat): (r: seq<T>)
    ensures |r| == if k <= |s| then |s| - k else 0
    ensures forall i | 0 <= i < |r| :: r[i] == s[k + i]
  {
    if k <= |s| then s[k..] else []
  }

  /** `iter().step_by(step)`: the first element, then every `step`-th one after it. */
  function StepBy<T>(s: seq<T>, step: nat): seq<T>
    requires step > 0
    decreases |s|
  {
    if |s| == 0 then [] else [s[0]] + StepBy(s[if step < |s| then step else |s|..], step)
  }

  lemma MulLe(a: nat, b: nat, c: nat)
    requires a <= b
    ensures a * c <= b * c
  {
    assert b * c - a * c == (b - a) * c;
  }

  /** The `k`-th element that `step_by` yields is `s[k * step]`. */
  lemma {:induction false} StepByAt<T>(s: seq<T>, step: nat, k: nat)
    requires step > 0 && k * step < |s|
    ensures k < |StepBy(s, step)| && StepBy(s, step)[k] == s[k * step]
  {
    if k > 0 {
      MulLe(1, k, step);
      assert (k - 1) * step == k * step - step;
      StepByAt(s[step..], step, k - 1);
    }
  }

  /** `step_by` yields exactly `m` elements when `(m - 1) * step < |s| <= m * step`. */
  lemma {:induction false} StepByLength<T>(s: seq<T>, step: nat, m: nat)
    requires step > 0 && m >= 1 && (m - 1) * step < |s| <= m * step
    ensures |StepBy(s, step)| == m
  {
    assert (m - 1) * step == m * step - step;
    if m == 1 {
      assert StepBy(s[|s|..], step) == [];
    } else {
      MulLe(1, m - 1, step);
      assert (m - 2) * step == (m - 1) * step - step;
      StepByLength(s[step..], step, m - 1);
    }
  }

  /** The `k`-th of `m` steps stays inside `s`. */
  lemma StepInside(len: nat, step: nat, m: nat, k: nat)
    requires k < m && (m - 1) * step < len
    ensures k * step < len
  {
    MulLe(k, m - 1, step);
  }

  /** `StepByAt` for the `k`-th of `m` steps. */
  lemma StepByAtInside<T>(s: seq<T>, step: nat, m: nat, k: nat)
    requires step > 0 && k < m && (m - 1) * step < |s|
    ensures k * step < |s| && k < |StepBy(s, step)| && StepBy(s, step)[k] == s[k * step]
  {
    StepInside(|s|, step, m, k);
    StepByAt(s, step, k);
  }

  /** The first `m` elements `step_by` yields, when `(m - 1) * step` is inside `s`. */
  lemma StepByPrefix<T>(s: seq<T>, step: nat, m: nat)
    requires step > 0 && (m - 1) * step < |s|
    ensures forall k | 0 <= k < m :: k * step < |s| && k < |StepBy(s, step)| && StepBy(s, step)[k] == s[k * step]
  {
    forall k | 0 <= k < m
      ensures k * step < |s| && k < |StepBy(s, step)| && StepBy(s, step)[k] == s[k * step]
    {
      StepByAtInside(s, step, m, k);
    }
  }

  /** Both facts together: `step_by` yields `s[0], s[step], ..., s[(m - 1) * step]`. */
  lemma StepByShape<T>(s: seq<T>, step: nat, m: nat)
    requires step > 0 && m >= 1 && (m - 1) * step < |s| <= m * step
    ensures |StepBy(s, step)| == m
    ensures forall k | 0 <= k < m :: k * step < |s| && StepBy(s, step)[k] == s[k * step]
  {
    StepByLength(s, step, m);
    StepByPrefix(s, step, m);
  }
}
