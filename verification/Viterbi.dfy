/** Scores of state paths, and the dynamic program over them that Predict runs. */
module Viterbi {

  /** Logarithms of probabilities, by state index and observation. */
  datatype Model = Model(states: nat, initial: real, emission: (nat, nat) -> real, transition: (nat, nat) -> real)

  type Path = seq<nat>

  ghost predicate IsPath(m: Model, path: Path, n: nat) {
    |path| == n && forall i :: 0 <= i < n ==> path[i] < m.states
  }

  function Last(path: Path): nat
    requires path != []
  {
    path[|path| - 1]
  }

  /** The logarithm of the joint probability of a path and the observations it explains. */
  function Score(m: Model, obs: seq<nat>, path: Path): real
    requires 1 <= |path| <= |obs|
  {
    var n := |path|;
    if n == 1 then m.initial + m.emission(path[0], obs[0])
    else Score(m, obs, path[..n - 1]) + m.transition(path[n - 2], path[n - 1]) + m.emission(path[n - 1], obs[n - 1])
  }

  // ---------- the dynamic program ----------

  /** An index and the value found there. */
  datatype Found = Found(value: real, index: nat)

  /** The score of the best path that ends at time t in state i. */
  function Best(m: Model, obs: seq<nat>, lowest: real, t: nat, i: nat): real
    requires t < |obs|
    decreases t, 1, 0
  {
    if t == 0 then m.initial + m.emission(i, obs[0])
    else Step(m, obs, lowest, t, i, m.states).value + m.emission(i, obs[t])
  }

  /** The first of the largest values among the first k predecessors; a value must exceed the lowest to be taken. */
  function Step(m: Model, obs: seq<nat>, lowest: real, t: nat, i: nat, k: nat): Found
    requires 1 <= t < |obs|
    decreases t, 0, k
  {
    if k == 0 then Found(lowest, 0)
    else
      var before := Step(m, obs, lowest, t, i, k - 1);
      var prob := Best(m, obs, lowest, t - 1, k - 1) + m.transition(k - 1, i);
      if prob > before.value then Found(prob, k - 1) else before
  }

  /** The first of the largest final values among the first k states. */
  function Final(m: Model, obs: seq<nat>, lowest: real, k: nat): Found
    requires obs != []
  {
    if k == 0 then Found(lowest, 0)
    else
      var before := Final(m, obs, lowest, k - 1);
      var prob := Best(m, obs, lowest, |obs| - 1, k - 1);
      if prob > before.value then Found(prob, k - 1) else before
  }

  /** Following the back pointers from state i at time t. */
  function Trace(m: Model, obs: seq<nat>, lowest: real, t: nat, i: nat): (p: Path)
    requires t < |obs|
    ensures |p| == t + 1 && Last(p) == i
  {
    if t == 0 then [i] else Trace(m, obs, lowest, t - 1, Step(m, obs, lowest, t, i, m.states).index) + [i]
  }

  // ---------- no score is as low as the start value ----------

  /** Every logarithm is at least -bound, and even so many of them do not reach the lowest number. */
  ghost predicate Bounded(m: Model, obs: seq<nat>, lowest: real, bound: real) {
    && m.states > 0 && bound >= 0.0 && m.initial >= -bound
    && (forall i: nat, o: nat :: i < m.states && o in obs ==> m.emission(i, o) >= -bound)
    && (forall i: nat, j: nat :: i < m.states && j < m.states ==> m.transition(i, j) >= -bound)
    && lowest < -(Times(2 * |obs| + 1, bound))
  }

  /** n times a number. */
  function Times(n: nat, x: real): real { if n == 0 then 0.0 else x + Times(n - 1, x) }

  lemma {:induction false} TimesMonotone(a: nat, b: nat, x: real)
    requires a <= b && x >= 0.0
    ensures 0.0 <= Times(a, x) <= Times(b, x)
    decreases b
  {
    if b == 0 {
    } else if a == b {
      TimesMonotone(0, b - 1, x);
    } else {
      TimesMonotone(a, b - 1, x);
    }
  }

  lemma {:induction false} StepAbove(m: Model, obs: seq<nat>, lowest: real, bound: real, t: nat, i: nat, k: nat)
    requires Bounded(m, obs, lowest, bound) && 1 <= t < |obs| && i < m.states && 1 <= k <= m.states
    ensures Step(m, obs, lowest, t, i, k).value >= -Times(2 * t + 1, bound)
    ensures Step(m, obs, lowest, t, i, k).value > lowest
    decreases t, 0, k
  {
    BestAbove(m, obs, lowest, bound, t - 1, k - 1);
    TimesMonotone(2 * t + 1, 2 * |obs| + 1, bound);
    assert Times(2 * t + 1, bound) == bound + Times(2 * t, bound);
    if k > 1 {
      StepAbove(m, obs, lowest, bound, t, i, k - 1);
    }
  }

  lemma {:induction false} BestAbove(m: Model, obs: seq<nat>, lowest: real, bound: real, t: nat, i: nat)
    requires Bounded(m, obs, lowest, bound) && t < |obs| && i < m.states
    ensures Best(m, obs, lowest, t, i) >= -Times(2 * t + 2, bound) && Best(m, obs, lowest, t, i) > lowest
    decreases t, 1, 0
  {
    assert obs[t] in obs;
    TimesMonotone(2 * t + 2, 2 * |obs| + 1, bound);
    assert Times(2 * t + 2, bound) == bound + Times(2 * t + 1, bound);
    if t == 0 {
      assert Times(1, bound) == bound + Times(0, bound);
    } else {
      StepAbove(m, obs, lowest, bound, t, i, m.states);
    }
  }

  // ---------- what Step and Final find ----------

  lemma {:induction false} StepIsMax(m: Model, obs: seq<nat>, lowest: real, bound: real, t: nat, i: nat, k: nat, j: nat)
    requires Bounded(m, obs, lowest, bound) && 1 <= t < |obs| && i < m.states && j < k <= m.states
    ensures var f := Step(m, obs, lowest, t, i, k);
      && f.index < k && f.value == Best(m, obs, lowest, t - 1, f.index) + m.transition(f.index, i)
      && Best(m, obs, lowest, t - 1, j) + m.transition(j, i) <= f.value
    decreases k
  {
    if k > 1 {
      StepIsMax(m, obs, lowest, bound, t, i, k - 1, if j < k - 1 then j else 0);
    } else {
      StepAbove(m, obs, lowest, bound, t, i, 1);
    }
  }

  lemma {:induction false} FinalIsFirstMax(m: Model, obs: seq<nat>, lowest: real, bound: real, k: nat, j: nat)
    requires Bounded(m, obs, lowest, bound) && obs != [] && j < k <= m.states
    ensures var f := Final(m, obs, lowest, k);
      && f.index < k && f.value == Best(m, obs, lowest, |obs| - 1, f.index)
      && Best(m, obs, lowest, |obs| - 1, j) <= f.value
      && (j < f.index ==> Best(m, obs, lowest, |obs| - 1, j) < f.value)
    decreases k
  {
    if k > 1 {
      FinalIsFirstMax(m, obs, lowest, bound, k - 1, if j < k - 1 then j else 0);
    } else {
      BestAbove(m, obs, lowest, bound, |obs| - 1, 0);
    }
  }

  // ---------- the table is the maximum over all paths ----------

  /** No path that ends in state i scores more than the table says. */
  lemma {:induction false} NoPathIsBetter(m: Model, obs: seq<nat>, lowest: real, bound: real, path: Path)
    requires Bounded(m, obs, lowest, bound) && 1 <= |path| <= |obs| && IsPath(m, path, |path|)
    ensures Score(m, obs, path) <= Best(m, obs, lowest, |path| - 1, Last(path))
    decreases |path|
  {
    var t := |path| - 1;
    if t > 0 {
      var before := path[..t];
      NoPathIsBetter(m, obs, lowest, bound, before);
      assert Last(before) == path[t - 1];
      StepIsMax(m, obs, lowest, bound, t, Last(path), m.states, path[t - 1]);
    }
  }

  /** And the path the back pointers give does score that much. */
  lemma {:induction false} TraceIsBest(m: Model, obs: seq<nat>, lowest: real, bound: real, t: nat, i: nat)
    requires Bounded(m, obs, lowest, bound) && t < |obs| && i < m.states
    ensures IsPath(m, Trace(m, obs, lowest, t, i), t + 1)
    ensures Score(m, obs, Trace(m, obs, lowest, t, i)) == Best(m, obs, lowest, t, i)
    decreases t
  {
    if t > 0 {
      StepIsMax(m, obs, lowest, bound, t, i, m.states, 0);
      var j := Step(m, obs, lowest, t, i, m.states).index;
      TraceIsBest(m, obs, lowest, bound, t - 1, j);
      var before := Trace(m, obs, lowest, t - 1, j);
      var p := Trace(m, obs, lowest, t, i);
      assert p[..t] == before && p[t - 1] == Last(before) && p[t] == i;
    }
  }

  /** state is the last of a highest-scoring path, and no path that ends in an earlier state scores as much. */
  ghost predicate EndsBestPath(m: Model, obs: seq<nat>, state: nat) {
    && obs != [] && state < m.states
    && exists best: Path :: IsBestTo(m, obs, best, state)
  }

  ghost predicate IsBestTo(m: Model, obs: seq<nat>, best: Path, state: nat)
    requires obs != []
  {
    && IsPath(m, best, |obs|) && Last(best) == state
    && forall p: Path :: IsPath(m, p, |obs|) ==>
      Score(m, obs, p) <= Score(m, obs, best) && (Last(p) < state ==> Score(m, obs, p) < Score(m, obs, best))
  }

  /** The path the program ends with. */
  lemma FinalPath(m: Model, obs: seq<nat>, lowest: real, bound: real) returns (best: Path, k: nat, score: real)
    requires Bounded(m, obs, lowest, bound) && obs != []
    ensures k == Final(m, obs, lowest, m.states).index && k < m.states && IsPath(m, best, |obs|) && Last(best) == k
    ensures Score(m, obs, best) == score == Final(m, obs, lowest, m.states).value
  {
    FinalIsFirstMax(m, obs, lowest, bound, m.states, 0);
    k := Final(m, obs, lowest, m.states).index;
    TraceIsBest(m, obs, lowest, bound, |obs| - 1, k);
    best := Trace(m, obs, lowest, |obs| - 1, k);
    score := Score(m, obs, best);
  }

  lemma NoneBeatsFinal(m: Model, obs: seq<nat>, lowest: real, bound: real, p: Path)
    requires Bounded(m, obs, lowest, bound) && obs != [] && IsPath(m, p, |obs|)
    ensures var f := Final(m, obs, lowest, m.states);
      Score(m, obs, p) <= f.value && (Last(p) < f.index ==> Score(m, obs, p) < f.value)
  {
    NoPathIsBetter(m, obs, lowest, bound, p);
    FinalIsFirstMax(m, obs, lowest, bound, m.states, Last(p));
  }

  /** The last state of the dynamic program ends a path that no other of the exponentially many beats. */
  lemma FinalEndsBestPath(m: Model, obs: seq<nat>, lowest: real, bound: real)
    requires Bounded(m, obs, lowest, bound) && obs != []
    ensures EndsBestPath(m, obs, Final(m, obs, lowest, m.states).index)
  {
    var best, k, score := FinalPath(m, obs, lowest, bound);
    forall p: Path | IsPath(m, p, |obs|)
      ensures Score(m, obs, p) <= score && (Last(p) < k ==> Score(m, obs, p) < score)
    {
      NoneBeatsFinal(m, obs, lowest, bound, p);
    }
    assert IsBestTo(m, obs, best, k);
  }
}
