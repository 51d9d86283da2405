/** The hidden-Markov-model classifier: prediction, and learning by counting. */
module Classifier {
  import opened Outcomes
  import V = Viterbi

  datatype TrafficType = WebBrowsing | VideoStreaming | FileDownload | Dynamic

  const STATES: seq<TrafficType> := [WebBrowsing, VideoStreaming, FileDownload]
  function IndexOf(s: TrafficType): (k: nat)
    requires s in STATES
    ensures k < |STATES| && STATES[k] == s
  {
    match s
    case WebBrowsing => 0
    case VideoStreaming => 1
    case FileDownload => 2
  }

  /** How a call of Train ends. */
  datatype Training = Updated | Refused | Panicked

  const EPSILON: real := 0.000000001
  const OBSERVATIONS: nat := 3

  function DiscretizePayloadSize(length: int): (o: nat)
    ensures o < OBSERVATIONS
  {
    if length < 200 then 0 else if length < 800 then 1 else 2
  }

  type Row = seq<real>

  function Sum(row: Row): real { if row == [] then 0.0 else row[0] + Sum(row[1..]) }

  /** What the smoothed counts are divided by: the total, or one if nothing was counted, and the smoothing. */
  function Denominator(counts: Row): real {
    (if Sum(counts) == 0.0 then 1.0 else Sum(counts)) + |counts| as real * EPSILON
  }

  ghost predicate NonNegative(row: Row) { forall k :: 0 <= k < |row| ==> row[k] >= 0.0 }

  lemma DenominatorIs(counts: Row, k: nat)
    requires NonNegative(counts) && k < |counts|
    ensures counts[k] + EPSILON <= Denominator(counts) && counts[k] >= 0.0
  {
    SumNonNegative(counts);
    AtLeastOne(|counts|);
  }

  /** One row from its counts. */
  function Normalized(counts: Row): (r: Row)
    requires NonNegative(counts)
    ensures |r| == |counts|
  {
    seq(|counts|, k requires 0 <= k < |counts| => DenominatorIs(counts, k); (counts[k] + EPSILON) / Denominator(counts))
  }

  lemma {:induction false} SumNonNegative(row: Row)
    requires NonNegative(row)
    ensures Sum(row) >= 0.0
    ensures forall k :: 0 <= k < |row| ==> row[k] <= Sum(row)
  {
    if row != [] {
      SumNonNegative(row[1..]);
      forall k | 0 <= k < |row| ensures row[k] <= Sum(row) {
        assert k > 0 ==> row[k] == row[1..][k - 1];
      }
    }
  }

  lemma {:induction false} SumScaled(row: Row, r: Row, d: real)
    requires |r| == |row| && d > 0.0 && forall k :: 0 <= k < |row| ==> r[k] == (row[k] + EPSILON) / d
    ensures Sum(r) == (Sum(row) + |row| as real * EPSILON) / d
  {
    if row != [] {
      SumScaled(row[1..], r[1..], d);
      DivideSum(row[0] + EPSILON, Sum(row[1..]) + |row[1..]| as real * EPSILON, d);
      assert |row| as real * EPSILON == EPSILON + |row[1..]| as real * EPSILON;
    }
  }

  lemma DivideSum(a: real, b: real, d: real)
    requires d > 0.0
    ensures a / d + b / d == (a + b) / d
  {
  }

  ghost predicate Probabilities(row: Row) { forall k :: 0 <= k < |row| ==> 0.0 < row[k] <= 1.0 }

  lemma Fraction(a: real, b: real)
    requires 0.0 < a <= b
    ensures 0.0 < a / b <= 1.0
  {
  }

  /** Every probability is in (0, 1], and they sum to one exactly when something was counted. */
  lemma NormalizedIs(counts: Row)
    requires counts != [] && NonNegative(counts)
    ensures Probabilities(Normalized(counts))
    ensures Sum(Normalized(counts)) == 1.0 <==> Sum(counts) != 0.0
  {
    var r, d := Normalized(counts), Denominator(counts);
    forall k | 0 <= k < |counts| ensures 0.0 < r[k] <= 1.0 {
      DenominatorIs(counts, k);
      Fraction(counts[k] + EPSILON, d);
    }
    DenominatorIs(counts, 0);
    NormalizedSum(counts, r, d);
  }

  lemma NormalizedSum(counts: Row, r: Row, d: real)
    requires counts != [] && NonNegative(counts) && d == Denominator(counts) && d > 0.0
    requires |r| == |counts| && forall k :: 0 <= k < |counts| ==> r[k] == (counts[k] + EPSILON) / d
    ensures Sum(r) == 1.0 <==> Sum(counts) != 0.0
  {
    SumScaled(counts, r, d);
    AtLeastOne(|counts|);
    if Sum(counts) == 0.0 {
      LessThanOne(|counts| as real * EPSILON, d);
    } else {
      SameOverSame(d);
    }
  }

  lemma AtLeastOne(n: nat)
    requires n >= 1
    ensures n as real * EPSILON >= EPSILON
  {
  }

  lemma LessThanOne(a: real, b: real)
    requires 0.0 < a < b
    ensures a / b < 1.0
  {
    var q := a / b;
    assert q * b == a;
    assert q >= 1.0 ==> q * b >= 1.0 * b;
  }

  lemma SameOverSame(d: real)
    requires d > 0.0
    ensures d / d == 1.0
  {
  }

  // ---------- counting ----------

  /** What training has counted for one state: emissions by observation, transitions by next state. */
  datatype Counts = Counts(emission: Row, transition: Row)

  ghost predicate Countable(c: Counts) {
    && |c.emission| == OBSERVATIONS && |c.transition| == |STATES|
    && NonNegative(c.emission) && NonNegative(c.transition)
  }

  /** Observations outside the table are skipped. */
  function CountEmissions(row: Row, observations: seq<nat>): (r: Row)
    ensures |r| == |row|
    decreases |observations|
  {
    if observations == [] then row
    else
      var o := observations[0];
      CountEmissions(if o < |row| then row[o := row[o] + 1.0] else row, observations[1..])
  }

  function Occurrences(observations: seq<nat>, o: nat): nat {
    if observations == [] then 0 else (if observations[0] == o then 1 else 0) + Occurrences(observations[1..], o)
  }

  /** Nothing is lost or counted twice. */
  lemma {:induction false} CountEmissionsIs(row: Row, observations: seq<nat>, o: nat)
    requires o < |row|
    ensures CountEmissions(row, observations)[o] == row[o] + Occurrences(observations, o) as real
    decreases |observations|
  {
    if observations != [] {
      var first := observations[0];
      var row1 := if first < |row| then row[first := row[first] + 1.0] else row;
      CountEmissionsIs(row1, observations[1..], o);
      assert row1[o] == row[o] + (if first == o then 1.0 else 0.0);
    }
  }

  /** Training with one truth: every observation, and as many stays in the state as there are steps between them. */
  function Trained(c: Counts, observations: seq<nat>, state: nat): Counts
    requires observations != [] && state < |c.transition|
  {
    Counts(CountEmissions(c.emission, observations),
           if |observations| > 1 then c.transition[state := c.transition[state] + (|observations| - 1) as real] else c.transition)
  }

  lemma TrainedIsCountable(c: Counts, observations: seq<nat>, state: nat)
    requires Countable(c) && observations != [] && state < |STATES|
    ensures Countable(Trained(c, observations, state))
  {
    forall k | 0 <= k < OBSERVATIONS ensures CountEmissions(c.emission, observations)[k] >= 0.0 {
      CountEmissionsIs(c.emission, observations, k);
    }
  }

  // ---------- the object ----------

  const ZERO: Row := [0.0, 0.0, 0.0]

  /** A row for each state. */
  function Table(web: Row, video: Row, file: Row): (t: map<TrafficType, Row>)
    ensures t.Keys == (set s | s in STATES)
    ensures t[WebBrowsing] == web && t[VideoStreaming] == video && t[FileDownload] == file
  {
    map[WebBrowsing := web, VideoStreaming := video, FileDownload := file]
  }

  /** A row of the given width for every state and no other. */
  ghost predicate Tables(t: map<TrafficType, Row>, width: nat) {
    t.Keys == (set s | s in STATES) && forall s :: s in t ==> |t[s]| == width
  }

  ghost predicate SumToOne(t: map<TrafficType, Row>) { forall s :: s in STATES ==> s in t && Sum(t[s]) == 1.0 }

  ghost predicate CountTables(emission: map<TrafficType, Row>, transition: map<TrafficType, Row>) {
    && Tables(emission, OBSERVATIONS) && Tables(transition, |STATES|)
    && forall s :: s in STATES ==> Countable(Counts(emission[s], transition[s]))
  }

  ghost predicate ProbabilityTables(emission: map<TrafficType, Row>, transition: map<TrafficType, Row>) {
    && Tables(emission, OBSERVATIONS) && Tables(transition, |STATES|)
    && forall s :: s in STATES ==> Probabilities(emission[s]) && Probabilities(transition[s])
  }

  /** Every row is what its counts say. */
  ghost predicate Renormalized(probs: map<TrafficType, Row>, counts: map<TrafficType, Row>) {
    && probs.Keys == counts.Keys
    && forall s :: s in counts ==> NonNegative(counts[s]) && probs[s] == Normalized(counts[s])
  }

  /** The model is made of the logarithms of these tables. */
  ghost predicate LogarithmsOf(m: V.Model, log: real -> real, emission: map<TrafficType, Row>, transition: map<TrafficType, Row>) {
    && m.states == |STATES| && m.initial == log(1.0 / |STATES| as real)
    && Tables(emission, OBSERVATIONS) && Tables(transition, |STATES|)
    && (forall i: nat, o: nat :: i < |STATES| && o < OBSERVATIONS ==> m.emission(i, o) == log(emission[STATES[i]][o]))
    && (forall i: nat, j: nat :: i < |STATES| && j < |STATES| ==> m.transition(i, j) == log(transition[STATES[i]][j]))
  }

  class HmmClassifier {
    const log: real -> real
    const lowest: real
    var emissionProbs: map<TrafficType, Row>
    var transitionProbs: map<TrafficType, Row>
    var emissionCounts: map<TrafficType, Row>
    var transitionCounts: map<TrafficType, Row>

    ghost predicate Valid()
      reads this
    {
      CountTables(emissionCounts, transitionCounts) && ProbabilityTables(emissionProbs, transitionProbs)
    }

    ghost function CountsOf(s: TrafficType): Counts
      requires s in emissionCounts && s in transitionCounts
      reads this
    {
      Counts(emissionCounts[s], transitionCounts[s])
    }

    /** The logarithms that Predict adds up. */
    ghost function Logs(): V.Model
      reads this
    {
      LogsOf(log, emissionProbs, transitionProbs)
    }

    constructor (log: real -> real, lowest: real)
      ensures Valid() && this.log == log && this.lowest == lowest
      ensures SumToOne(emissionProbs) && SumToOne(transitionProbs)
      ensures forall s :: s in STATES ==> emissionCounts[s] == ZERO && transitionCounts[s] == ZERO
    {
      var web := Smooth([0.7, 0.25, 0.05]);
      var video := Smooth([0.1, 0.3, 0.6]);
      var file := Smooth([0.05, 0.05, 0.9]);
      var third := 1.0 / |STATES| as real;
      this.log, this.lowest := log, lowest;
      emissionProbs := Table(web, video, file);
      transitionProbs := Table([third, third, third], [third, third, third], [third, third, third]);
      emissionCounts := Table(ZERO, ZERO, ZERO);
      transitionCounts := Table(ZERO, ZERO, ZERO);
      new;
      ThirdsSum(third);
      InitialProbabilities(web, video, file, [third, third, third]);
      InitialCounts();
    }

    /** The last state of a highest-scoring path of hidden states; the earliest such state on ties. */
    method Predict(observations: seq<nat>, ghost bound: real) returns (r: Outcome<TrafficType, string>)
      requires Valid() && (forall o :: o in observations ==> o < OBSERVATIONS)
      requires V.Bounded(Logs(), observations, lowest, bound)
      ensures r.Fail? <==> observations == []
      ensures r.Ok? ==> exists k :: 0 <= k < |STATES| && r.value == STATES[k] && V.EndsBestPath(Logs(), observations, k)
    {
      if |observations| == 0 {
        return Fail("observations cannot be empty");
      }
      var numStates, numObservations := |STATES|, |observations|;
      ghost var m := Logs();
      assert LogarithmsOf(m, log, emissionProbs, transitionProbs);
      var viterbi := new real[numStates, numObservations];
      var backpointer := new nat[numStates, numObservations];
      FirstColumn(m, log, lowest, emissionProbs, transitionProbs, observations, viterbi);
      for t := 1 to numObservations
        invariant Filled(m, lowest, observations, viterbi, t)
        invariant forall k, s :: 0 <= k < numStates && 1 <= s < t ==>
          backpointer[k, s] == V.Step(m, observations, lowest, s, k, numStates).index
      {
        FillColumn(m, log, lowest, emissionProbs, transitionProbs, observations, t, viterbi, backpointer);
      }
      var lastState := PickLast(m, lowest, observations, viterbi, numObservations - 1);
      V.FinalEndsBestPath(m, observations, lowest, bound);
      return Ok(STATES[lastState]);
    }

    /**
      Counts the observations under the truth, then renormalizes everything. Dynamic has no rows:
      its observations are all skipped, and a second one makes the source write to a nil map.
     */
    method Train(observations: seq<nat>, groundTruth: TrafficType) returns (r: Training)
      requires Valid()
      modifies this
      ensures Valid()
      ensures r == Refused <==> observations == []
      ensures r == Panicked <==> groundTruth == Dynamic && |observations| > 1
      ensures r != Updated ==> unchanged(this)
      ensures r == Updated ==> Renormalized(emissionProbs, emissionCounts) && Renormalized(transitionProbs, transitionCounts)
      ensures r == Updated && groundTruth in STATES ==>
        CountsOf(groundTruth) == Trained(old(CountsOf(groundTruth)), observations, IndexOf(groundTruth))
      ensures forall s :: s in STATES && s != groundTruth ==> CountsOf(s) == old(CountsOf(s))
    {
      if |observations| == 0 {
        return Refused;
      }
      if groundTruth in STATES {
        CountTruth(observations, groundTruth);
      } else if |observations| > 1 {
        return Panicked;
      }
      ReNormalizeProbabilities();
      return Updated;
    }

    method CountTruth(observations: seq<nat>, truth: TrafficType)
      requires Valid() && truth in STATES && observations != []
      modifies this`emissionCounts, this`transitionCounts
      ensures Valid() && CountsOf(truth) == Trained(old(CountsOf(truth)), observations, IndexOf(truth))
      ensures forall s :: s in STATES && s != truth ==> CountsOf(s) == old(CountsOf(s))
    {
      TrainedTables(emissionCounts, transitionCounts, observations, IndexOf(truth));
      var c := TrainRows(Counts(emissionCounts[truth], transitionCounts[truth]), observations, IndexOf(truth));
      emissionCounts := emissionCounts[truth := c.emission];
      transitionCounts := transitionCounts[truth := c.transition];
    }

    /** Recomputes every row from its counts; the order of the states does not matter. */
    method ReNormalizeProbabilities()
      requires Valid()
      modifies this`emissionProbs, this`transitionProbs
      ensures Valid() && Renormalized(emissionProbs, emissionCounts) && Renormalized(transitionProbs, transitionCounts)
    {
      emissionProbs := NormalizeAll(emissionCounts, emissionProbs, OBSERVATIONS);
      transitionProbs := NormalizeAll(transitionCounts, transitionProbs, |STATES|);
    }
  }

  lemma InitialCounts()
    ensures CountTables(Table(ZERO, ZERO, ZERO), Table(ZERO, ZERO, ZERO))
    ensures forall s :: s in STATES ==> Table(ZERO, ZERO, ZERO)[s] == ZERO
  {
    assert forall s :: s in STATES ==> s == WebBrowsing || s == VideoStreaming || s == FileDownload;
  }

  lemma InitialProbabilities(web: Row, video: Row, file: Row, thirds: Row)
    requires |web| == |video| == |file| == |thirds| == 3
    requires Probabilities(web) && Probabilities(video) && Probabilities(file) && Probabilities(thirds)
    requires Sum(web) == Sum(video) == Sum(file) == Sum(thirds) == 1.0
    ensures ProbabilityTables(Table(web, video, file), Table(thirds, thirds, thirds))
    ensures SumToOne(Table(web, video, file)) && SumToOne(Table(thirds, thirds, thirds))
  {
    assert forall s :: s in STATES ==> s == WebBrowsing || s == VideoStreaming || s == FileDownload;
  }

  lemma TrainedTables(emission: map<TrafficType, Row>, transition: map<TrafficType, Row>, observations: seq<nat>, state: nat)
    requires CountTables(emission, transition) && state < |STATES| && observations != []
    ensures var s := STATES[state];
      var c := Trained(Counts(emission[s], transition[s]), observations, state);
      CountTables(emission[s := c.emission], transition[s := c.transition])
  {
    var s := STATES[state];
    TrainedIsCountable(Counts(emission[s], transition[s]), observations, state);
  }

  /** The columns before t hold the scores of the best paths. */
  ghost predicate Filled(m: V.Model, lowest: real, observations: seq<nat>, viterbi: array2<real>, t: nat)
    requires viterbi.Length0 == |STATES| && viterbi.Length1 == |observations| && t <= |observations|
    reads viterbi
  {
    forall k, s :: 0 <= k < |STATES| && 0 <= s < t ==> viterbi[k, s] == V.Best(m, observations, lowest, s, k)
  }

  method FirstColumn(ghost m: V.Model, log: real -> real, lowest: real, emission: map<TrafficType, Row>,
      ghost transition: map<TrafficType, Row>, observations: seq<nat>, viterbi: array2<real>)
    requires LogarithmsOf(m, log, emission, transition)
    requires observations != [] && (forall o :: o in observations ==> o < OBSERVATIONS)
    requires viterbi.Length0 == |STATES| && viterbi.Length1 == |observations|
    modifies viterbi
    ensures Filled(m, lowest, observations, viterbi, 1)
  {
    assert observations[0] in observations;
    for i := 0 to |STATES|
      invariant forall k :: 0 <= k < i ==> viterbi[k, 0] == V.Best(m, observations, lowest, 0, k)
    {
      viterbi[i, 0] := log(1.0 / |STATES| as real) + log(emission[STATES[i]][observations[0]]);
    }
  }

  /** The inner loop: the best predecessor of a state, the first on ties. */
  method BestPredecessor(ghost m: V.Model, log: real -> real, lowest: real, ghost emission: map<TrafficType, Row>,
      transition: map<TrafficType, Row>, observations: seq<nat>, t: nat, i: nat, viterbi: array2<real>)
    returns (maxProb: real, maxState: nat)
    requires LogarithmsOf(m, log, emission, transition)
    requires 1 <= t < |observations| && i < |STATES|
    requires viterbi.Length0 == |STATES| && viterbi.Length1 == |observations| && Filled(m, lowest, observations, viterbi, t)
    ensures V.Step(m, observations, lowest, t, i, |STATES|) == V.Found(maxProb, maxState)
  {
    maxProb, maxState := lowest, 0;
    for j := 0 to |STATES|
      invariant V.Step(m, observations, lowest, t, i, j) == V.Found(maxProb, maxState)
    {
      var prob := viterbi[j, t - 1] + log(transition[STATES[j]][i]);
      if prob > maxProb {
        maxProb, maxState := prob, j;
      }
    }
  }

  /** One pass of the loop over time: the best predecessor of every state. */
  method FillColumn(ghost m: V.Model, log: real -> real, lowest: real, emission: map<TrafficType, Row>,
      transition: map<TrafficType, Row>, observations: seq<nat>, t: nat, viterbi: array2<real>, backpointer: array2<nat>)
    requires LogarithmsOf(m, log, emission, transition)
    requires 1 <= t < |observations| && (forall o :: o in observations ==> o < OBSERVATIONS)
    requires viterbi.Length0 == backpointer.Length0 == |STATES| && viterbi.Length1 == backpointer.Length1 == |observations|
    requires Filled(m, lowest, observations, viterbi, t)
    modifies viterbi, backpointer
    ensures Filled(m, lowest, observations, viterbi, t + 1)
    ensures forall k, s :: 0 <= k < |STATES| && 0 <= s < |observations| && s != t ==> backpointer[k, s] == old(backpointer[k, s])
    ensures forall k :: 0 <= k < |STATES| ==> backpointer[k, t] == V.Step(m, observations, lowest, t, k, |STATES|).index
  {
    for i := 0 to |STATES|
      invariant Filled(m, lowest, observations, viterbi, t)
      invariant forall k, s :: 0 <= k < |STATES| && 0 <= s < |observations| && s != t ==> backpointer[k, s] == old(backpointer[k, s])
      invariant forall k :: 0 <= k < i ==> viterbi[k, t] == V.Best(m, observations, lowest, t, k)
      invariant forall k :: 0 <= k < i ==> backpointer[k, t] == V.Step(m, observations, lowest, t, k, |STATES|).index
    {
      FillCell(m, log, lowest, emission, transition, observations, t, i, viterbi, backpointer);
    }
  }

  method FillCell(ghost m: V.Model, log: real -> real, lowest: real, emission: map<TrafficType, Row>,
      transition: map<TrafficType, Row>, observations: seq<nat>, t: nat, i: nat, viterbi: array2<real>, backpointer: array2<nat>)
    requires LogarithmsOf(m, log, emission, transition)
    requires 1 <= t < |observations| && i < |STATES| && (forall o :: o in observations ==> o < OBSERVATIONS)
    requires viterbi.Length0 == backpointer.Length0 == |STATES| && viterbi.Length1 == backpointer.Length1 == |observations|
    requires Filled(m, lowest, observations, viterbi, t)
    modifies viterbi, backpointer
    ensures viterbi[i, t] == V.Best(m, observations, lowest, t, i)
    ensures backpointer[i, t] == V.Step(m, observations, lowest, t, i, |STATES|).index
    ensures forall k, s :: 0 <= k < |STATES| && 0 <= s < |observations| && !(k == i && s == t) ==>
      viterbi[k, s] == old(viterbi[k, s]) && backpointer[k, s] == old(backpointer[k, s])
  {
    var obs := observations[t];
    assert obs in observations;
    var maxProb, maxState := BestPredecessor(m, log, lowest, emission, transition, observations, t, i, viterbi);
    viterbi[i, t] := maxProb + log(emission[STATES[i]][obs]);
    backpointer[i, t] := maxState;
  }

  /** The first state with the largest final score. */
  method PickLast(ghost m: V.Model, lowest: real, observations: seq<nat>, viterbi: array2<real>, last: nat) returns (lastState: nat)
    requires observations != [] && last == |observations| - 1
    requires viterbi.Length0 == |STATES| && viterbi.Length1 == |observations|
    requires Filled(m, lowest, observations, viterbi, |observations|)
    ensures lastState < |STATES| && lastState == V.Final(m, observations, lowest, |STATES|).index
  {
    var maxProb := lowest;
    lastState := 0;
    for i := 0 to |STATES|
      invariant lastState < |STATES| && V.Final(m, observations, lowest, i) == V.Found(maxProb, lastState)
    {
      if viterbi[i, last] > maxProb {
        maxProb, lastState := viterbi[i, last], i;
      }
    }
  }

  method TrainRows(c: Counts, observations: seq<nat>, state: nat) returns (r: Counts)
    requires observations != [] && state < |c.transition|
    ensures r == Trained(c, observations, state)
  {
    var row := CountUp(c.emission, observations);
    var stays := c.transition;
    if |observations| > 1 {
      stays := stays[state := stays[state] + (|observations| - 1) as real];
    }
    return Counts(row, stays);
  }

  /** The counting loop; observations outside the table are skipped. */
  method CountUp(counts: Row, observations: seq<nat>) returns (row: Row)
    ensures row == CountEmissions(counts, observations)
  {
    row := counts;
    for i := 0 to |observations|
      invariant CountEmissions(row, observations[i..]) == CountEmissions(counts, observations)
    {
      assert observations[i..][1..] == observations[i + 1..];
      var obs := observations[i];
      if obs >= |row| {
        continue;
      }
      row := row[obs := row[obs] + 1.0];
    }
  }

  lemma ThirdsSum(third: real)
    requires third == 1.0 / 3.0
    ensures Sum([third, third, third]) == 1.0
  {
    assert Sum([third]) == third;
    assert Sum([third, third]) == third + Sum([third]) by { assert [third, third][1..] == [third]; }
    assert [third, third, third][1..] == [third, third];
  }

  /** Adds the smoothing and divides by the new sum. */
  method Smooth(row: Row) returns (r: Row)
    requires row != [] && NonNegative(row)
    ensures |r| == |row| && Probabilities(r) && Sum(r) == 1.0
  {
    var sum := 0.0;
    var smoothed: Row := [];
    for i := 0 to |row|
      invariant |smoothed| == i && sum == Sum(smoothed)
      invariant forall k :: 0 <= k < i ==> smoothed[k] == row[k] + EPSILON
    {
      SumAppend(smoothed, row[i] + EPSILON);
      smoothed := smoothed + [row[i] + EPSILON];
      sum := sum + smoothed[i];
    }
    SumNonNegative(smoothed);
    assert smoothed[0] > 0.0;
    r := [];
    for i := 0 to |smoothed|
      invariant |r| == i && forall k :: 0 <= k < i ==> r[k] == smoothed[k] / sum && 0.0 < r[k] <= 1.0
    {
      Fraction(smoothed[i], sum);
      r := r + [smoothed[i] / sum];
    }
    SumDivided(smoothed, r, sum);
    SameOverSame(sum);
  }

  lemma {:induction false} SumAppend(row: Row, x: real)
    ensures Sum(row + [x]) == Sum(row) + x
  {
    if row == [] {
      assert [] + [x] == [x];
    } else {
      SumAppend(row[1..], x);
      assert (row + [x])[1..] == row[1..] + [x];
    }
  }

  lemma {:induction false} SumDivided(row: Row, r: Row, d: real)
    requires |r| == |row| && d > 0.0 && forall k :: 0 <= k < |row| ==> r[k] == row[k] / d
    ensures Sum(r) == Sum(row) / d
  {
    if row != [] {
      SumDivided(row[1..], r[1..], d);
      DivideSum(row[0], Sum(row[1..]), d);
    }
  }

  /** The loop over a table: every row of probabilities from its row of counts. */
  method NormalizeAll(counts: map<TrafficType, Row>, probs: map<TrafficType, Row>, width: nat) returns (r: map<TrafficType, Row>)
    requires probs.Keys == counts.Keys && width > 0 && forall s :: s in counts ==> |counts[s]| == width && NonNegative(counts[s])
    ensures Renormalized(r, counts) && forall s :: s in counts ==> |r[s]| == width && Probabilities(r[s])
  {
    r := probs;
    var todo := counts.Keys;
    while todo != {}
      invariant todo <= counts.Keys == r.Keys
      invariant forall s :: s in counts && s !in todo ==> r[s] == Normalized(counts[s]) && Probabilities(r[s])
      decreases |todo|
    {
      var state :| state in todo;
      var row := NormalizeRow(counts[state]);
      NormalizedIs(counts[state]);
      r := r[state := row];
      todo := todo - {state};
    }
  }

  method NormalizeRow(counts: Row) returns (r: Row)
    requires NonNegative(counts)
    ensures r == Normalized(counts)
  {
    var total := 0.0;
    for i := 0 to |counts|
      invariant total == Sum(counts[..i])
    {
      assert counts[..i + 1] == counts[..i] + [counts[i]];
      SumAppend(counts[..i], counts[i]);
      total := total + counts[i];
    }
    assert counts[..|counts|] == counts;
    if total == 0.0 {
      total := 1.0;
    }
    r := [];
    for i := 0 to |counts|
      invariant r == Normalized(counts)[..i]
    {
      DenominatorIs(counts, i);
      r := r + [(counts[i] + EPSILON) / (total + |counts| as real * EPSILON)];
    }
  }

  function LogsOf(log: real -> real, emission: map<TrafficType, Row>, transition: map<TrafficType, Row>): V.Model {
    V.Model(|STATES|, log(1.0 / |STATES| as real),
      (i: nat, o: nat) => if i < |STATES| && STATES[i] in emission && o < |emission[STATES[i]]| then log(emission[STATES[i]][o]) else 0.0,
      (i: nat, j: nat) => if i < |STATES| && STATES[i] in transition && j < |transition[STATES[i]]| then log(transition[STATES[i]][j]) else 0.0)
  }

  // ---------- runs of training ----------

  /** One call of Train that updates: its observations and the index of its truth, which is no state's for Dynamic. */
  datatype Session = Session(observations: seq<nat>, truth: nat)

  function TrainAll(c: Counts, sessions: seq<Session>, state: nat): Counts
    requires state < |c.transition|
    decreases |sessions|
  {
    if sessions == [] then c
    else TrainAll(if sessions[0].truth == state && sessions[0].observations != [] then Trained(c, sessions[0].observations, state) else c,
                  sessions[1..], state)
  }

  function Seen(sessions: seq<Session>, state: nat, o: nat): nat {
    if sessions == [] then 0
    else (if sessions[0].truth == state then Occurrences(sessions[0].observations, o) else 0) + Seen(sessions[1..], state, o)
  }

  lemma {:induction false} TrainAllCounts(c: Counts, sessions: seq<Session>, state: nat, o: nat)
    requires Countable(c) && state < |STATES| && o < OBSERVATIONS
    ensures Countable(TrainAll(c, sessions, state))
    ensures TrainAll(c, sessions, state).emission[o] == c.emission[o] + Seen(sessions, state, o) as real
    decreases |sessions|
  {
    if sessions != [] {
      var first := sessions[0];
      if first.truth == state && first.observations != [] {
        TrainedIsCountable(c, first.observations, state);
        CountEmissionsIs(c.emission, first.observations, o);
        TrainAllCounts(Trained(c, first.observations, state), sessions[1..], state, o);
      } else {
        TrainAllCounts(c, sessions[1..], state, o);
      }
    }
  }

  /**
    After any run of training, the rows of a state are probabilities in (0, 1]; its emissions sum
    to one exactly when an observation in the table was labelled with it.
   */
  lemma RowsAfterTraining(sessions: seq<Session>, state: nat)
    requires state < |STATES|
    ensures var c := TrainAll(Counts(ZERO, ZERO), sessions, state);
      && Countable(c) && Probabilities(Normalized(c.emission)) && Probabilities(Normalized(c.transition))
      && (Sum(Normalized(c.emission)) == 1.0 <==> exists o :: 0 <= o < OBSERVATIONS && Seen(sessions, state, o) > 0)
      && (Sum(Normalized(c.transition)) == 1.0 <==> Sum(c.transition) != 0.0)
  {
    var zero := Counts(ZERO, ZERO);
    var c := TrainAll(zero, sessions, state);
    TrainAllCounts(zero, sessions, state, 0);
    TrainAllCounts(zero, sessions, state, 1);
    TrainAllCounts(zero, sessions, state, 2);
    NormalizedIs(c.emission);
    NormalizedIs(c.transition);
    SumOfThree(c.emission);
  }

  lemma SumOfThree(row: Row)
    requires |row| == 3
    ensures Sum(row) == row[0] + row[1] + row[2]
  {
    assert row[1..][1..] == row[2..] && row[2..][1..] == [];
    assert Sum(row[2..]) == row[2];
    assert Sum(row[1..]) == row[1] + Sum(row[2..]);
  }
}
