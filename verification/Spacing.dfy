/** Counting events that keep a distance. */
module Spacing {
  import opened InternalJwt

  /** Starts lie at least `gap` apart. */
  predicate Spaced(starts: seq<Time>, gap: Time) {
    forall i :: 0 <= i < |starts| - 1 ==> starts[i] + gap <= starts[i + 1]
  }

  /** How many of the starts lie in the window of length `width` beginning at `t`. */
  function InWindow(starts: seq<Time>, t: Time, width: Time): nat {
    if starts == [] then 0
    else
      var n := |starts| - 1;
      InWindow(starts[..n], t, width) + if t <= starts[n] <= t + width then 1 else 0
  }

  lemma InWindowAppend(starts: seq<Time>, at: Time, t: Time, width: Time)
    ensures InWindow(starts + [at], t, width) == InWindow(starts, t, width) + if t <= at <= t + width then 1 else 0
  {
    assert (starts + [at])[..|starts|] == starts;
  }

  lemma {:induction false} WindowCount(starts: seq<Time>, gap: Time, t: Time, width: Time)
    requires gap > 0 && width >= 0 && Spaced(starts, gap)
    ensures (InWindow(starts, t, width) - 1) * gap <= width
    ensures starts != [] && starts[|starts| - 1] < t ==> InWindow(starts, t, width) == 0
    ensures starts != [] && t <= starts[|starts| - 1] <= t + width ==>
              (InWindow(starts, t, width) - 1) * gap <= starts[|starts| - 1] - t
  {
    if starts != [] {
      var n := |starts| - 1;
      WindowCount(starts[..n], gap, t, width);
      var before := InWindow(starts[..n], t, width);
      assert (before + 1 - 1) * gap == (before - 1) * gap + gap;
      if n > 0 { assert starts[..n][n - 1] == starts[n - 1]; }
    }
  }

  lemma LessFactor(a: int, b: int, gap: nat)
    requires a * gap < b * gap
    ensures a < b
  {}

  lemma DivideBound(count: nat, gap: Time, width: Time)
    requires gap > 0 && width >= 0 && (count - 1) * gap <= width
    ensures count <= 1 + width / gap
  {
    var q := width / gap;
    assert width < q * gap + gap == (q + 1) * gap;
    LessFactor(count - 1, q + 1, gap);
  }

  lemma OneMore(count: nat, factor: nat)
    ensures (count + 1) * factor == count * factor + factor
  {}

  lemma Scale(a: nat, b: nat, factor: nat)
    requires a <= b
    ensures a * factor <= b * factor
  {}

  /** Spaced starts are few in any window, and so is what each may cost. */
  lemma CountBound(starts: seq<Time>, gap: Time, t: Time, width: Time, cost: nat)
    requires gap > 0 && width >= 0 && Spaced(starts, gap)
    ensures InWindow(starts, t, width) <= 1 + width / gap
    ensures InWindow(starts, t, width) * cost <= (1 + width / gap) * cost
  {
    WindowCount(starts, gap, t, width);
    DivideBound(InWindow(starts, t, width), gap, width);
    Scale(InWindow(starts, t, width), 1 + width / gap, cost);
  }
}
