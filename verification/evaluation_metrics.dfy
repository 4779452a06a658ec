/**
 * The running metrics the evaluation harness keeps for one configuration (an algorithm, a
 * neighbourhood size and a recommendation count), folded over the users one at a time, and the
 * averages it reports at the end.
 */
module EvaluationMetrics {
  import opened Wrappers
  import opened JavaNumbers

  /** Users with fewer data pieces than this are counted as "not ideal". */
  const MIN_IDEAL_DATA_PIECES: int := 20

  /**
   * What the user loop learns about one user.  A precision of `None` is the NaN that the
   * precision/recall calculator yields when no recommendation was made.
   */
  datatype UserResult = UserResult(
    userId: int,
    precision: Option<real>,
    recall: real,
    dataCount: int,
    recommendations: seq<int>)

  datatype Metrics = Metrics(
    totalPrecision: real,
    totalRecall: real,
    totalDataPieces: int,
    minDataPieces: int,
    totalNotIdealUsers: int)

  /** The values `resetVariables` assigns. */
  const Reset: Metrics := Metrics(0.0, 0.0, 0, INTEGER_MAX_VALUE, 0)

  /** The NaN-to-zero substitution made before a precision enters the total. */
  function PrecisionOrZero(precision: Option<real>): real {
    match precision
    case None => 0.0
    case Some(p) => p
  }

  /** The metric updates of one pass of the user loop. */
  function AddUser(m: Metrics, r: UserResult): (a: Metrics)
    ensures a.totalRecall == m.totalRecall + r.recall && a.totalDataPieces == m.totalDataPieces + r.dataCount
    ensures r.precision.None? ==> a.totalPrecision == m.totalPrecision
    ensures r.precision.Some? ==> a.totalPrecision == m.totalPrecision + r.precision.value
    ensures a.minDataPieces <= m.minDataPieces && a.minDataPieces <= r.dataCount
    ensures a.minDataPieces == m.minDataPieces || a.minDataPieces == r.dataCount
    ensures a.totalNotIdealUsers == m.totalNotIdealUsers + 1 <==> r.dataCount < MIN_IDEAL_DATA_PIECES
    ensures a.totalNotIdealUsers == m.totalNotIdealUsers || a.totalNotIdealUsers == m.totalNotIdealUsers + 1
  {
    Metrics(
      m.totalPrecision + PrecisionOrZero(r.precision),
      m.totalRecall + r.recall,
      m.totalDataPieces + r.dataCount,
      if r.dataCount < m.minDataPieces then r.dataCount else m.minDataPieces,
      if r.dataCount < MIN_IDEAL_DATA_PIECES then m.totalNotIdealUsers + 1 else m.totalNotIdealUsers)
  }

  /** The metrics after a reset and one loop pass per user, in order. */
  function Accumulate(rs: seq<UserResult>): (m: Metrics)
    ensures m.minDataPieces <= INTEGER_MAX_VALUE
    ensures 0 <= m.totalNotIdealUsers <= |rs|
  {
    if rs == [] then Reset else AddUser(Accumulate(rs[..|rs| - 1]), rs[|rs| - 1])
  }

  // Reference definitions of what the totals should be, written without the loop's state.

  function SumDataCounts(rs: seq<UserResult>): int {
    if rs == [] then 0 else rs[0].dataCount + SumDataCounts(rs[1..])
  }

  /** The sum of the defined precisions; undefined ones are left out. */
  function SumDefinedPrecision(rs: seq<UserResult>): real {
    if rs == [] then 0.0
    else if rs[0].precision.None? then SumDefinedPrecision(rs[1..])
    else rs[0].precision.value + SumDefinedPrecision(rs[1..])
  }

  function SumRecall(rs: seq<UserResult>): real {
    if rs == [] then 0.0 else rs[0].recall + SumRecall(rs[1..])
  }

  /** Positions of the users below the data-sufficiency threshold. */
  function BelowThreshold(rs: seq<UserResult>): set<int> {
    set i | 0 <= i < |rs| && rs[i].dataCount < MIN_IDEAL_DATA_PIECES
  }

  /** Positions of the users whose precision is defined. */
  function DefinedPrecision(rs: seq<UserResult>): set<int> {
    set i | 0 <= i < |rs| && rs[i].precision.Some?
  }

  predicate ScoresInUnitRange(rs: seq<UserResult>) {
    forall i :: 0 <= i < |rs| ==>
      0.0 <= rs[i].recall <= 1.0 && (rs[i].precision.Some? ==> 0.0 <= rs[i].precision.value <= 1.0)
  }

  lemma {:induction false} SumsOfAppend(rs: seq<UserResult>, r: UserResult)
    ensures SumDataCounts(rs + [r]) == SumDataCounts(rs) + r.dataCount
    ensures SumDefinedPrecision(rs + [r]) == SumDefinedPrecision(rs) + PrecisionOrZero(r.precision)
    ensures SumRecall(rs + [r]) == SumRecall(rs) + r.recall
  {
    if rs != [] {
      assert (rs + [r])[1..] == rs[1..] + [r];
      SumsOfAppend(rs[1..], r);
    }
  }

  /**
   * After the user loop the totals are the plain sums: every data count, every recall, and
   * every defined precision, an undefined (NaN) precision contributing nothing.
   */
  lemma {:induction false} AccumulateTotals(rs: seq<UserResult>)
    ensures Accumulate(rs).totalDataPieces == SumDataCounts(rs)
    ensures Accumulate(rs).totalPrecision == SumDefinedPrecision(rs)
    ensures Accumulate(rs).totalRecall == SumRecall(rs)
  {
    if rs != [] {
      var front := rs[..|rs| - 1];
      AccumulateTotals(front);
      SumsOfAppend(front, rs[|rs| - 1]);
      assert front + [rs[|rs| - 1]] == rs;
    }
  }

  /** The running minimum is the least of Integer.MAX_VALUE and all data counts. */
  lemma {:induction false} AccumulateMinimum(rs: seq<UserResult>)
    ensures Accumulate(rs).minDataPieces <= INTEGER_MAX_VALUE
    ensures forall i :: 0 <= i < |rs| ==> Accumulate(rs).minDataPieces <= rs[i].dataCount
    ensures Accumulate(rs).minDataPieces == INTEGER_MAX_VALUE
         || exists i :: 0 <= i < |rs| && rs[i].dataCount == Accumulate(rs).minDataPieces
  {
    if rs != [] {
      var front := rs[..|rs| - 1];
      AccumulateMinimum(front);
      assert forall i :: 0 <= i < |front| ==> front[i] == rs[i];
      if Accumulate(front).minDataPieces != INTEGER_MAX_VALUE
         && Accumulate(rs).minDataPieces == Accumulate(front).minDataPieces {
        var j :| 0 <= j < |front| && front[j].dataCount == Accumulate(front).minDataPieces;
        assert rs[j].dataCount == Accumulate(rs).minDataPieces;
      }
    }
  }

  /** The not-ideal counter is the number of users with fewer than 20 data pieces. */
  lemma {:induction false} AccumulateNotIdeal(rs: seq<UserResult>)
    ensures Accumulate(rs).totalNotIdealUsers == |BelowThreshold(rs)| <= |rs|
  {
    if rs != [] {
      var front := rs[..|rs| - 1];
      AccumulateNotIdeal(front);
      var last := |rs| - 1;
      var extra := if rs[last].dataCount < MIN_IDEAL_DATA_PIECES then {last} else {};
      assert BelowThreshold(rs) == BelowThreshold(front) + extra;
      assert BelowThreshold(front) !! extra;
    }
  }

  /**
   * With every defined precision and every recall in [0, 1], the precision total lies between 0
   * and the number of users whose precision is defined, and the recall total between 0 and the
   * number of users.
   */
  lemma {:induction false} AccumulateScoreBounds(rs: seq<UserResult>)
    requires ScoresInUnitRange(rs)
    ensures 0.0 <= Accumulate(rs).totalPrecision <= |DefinedPrecision(rs)| as real
    ensures |DefinedPrecision(rs)| <= |rs|
    ensures 0.0 <= Accumulate(rs).totalRecall <= |rs| as real
  {
    if rs != [] {
      var front := rs[..|rs| - 1];
      var last := |rs| - 1;
      assert ScoresInUnitRange(front) by {
        forall i | 0 <= i < |front| ensures front[i] == rs[i] { }
      }
      AccumulateScoreBounds(front);
      var extra := if rs[last].precision.Some? then {last} else {};
      assert DefinedPrecision(rs) == DefinedPrecision(front) + extra;
      assert DefinedPrecision(front) !! extra;
    }
  }

  /** A sum of counts that are all at least `b` is at least `|rs| * b`. */
  lemma {:induction false} SumDataCountsAtLeast(rs: seq<UserResult>, b: int)
    requires forall i :: 0 <= i < |rs| ==> b <= rs[i].dataCount
    ensures |rs| * b <= SumDataCounts(rs)
  {
    if rs != [] {
      assert forall i :: 0 <= i < |rs[1..]| ==> rs[1..][i] == rs[i + 1];
      SumDataCountsAtLeast(rs[1..], b);
      assert |rs| * b == b + (|rs| - 1) * b;
    }
  }

  /** What `outputAverageMetrics` writes. */
  datatype AverageReport = AverageReport(
    neighbourhoodSize: int,
    totalRecommendations: int,
    avgDataPieces: Double,
    minDataPieces: int,
    notIdealPercent: Double,
    avgPrecision: Double,
    avgRecall: Double)

  /**
   * The averages, each a double division of a total by `userCount`, the separately queried
   * number of distinct users; nothing guards against a zero count.
   */
  function Averages(m: Metrics, neighbourhoodSize: int, totalRecommendations: int, userCount: int): (a: AverageReport)
    ensures a.neighbourhoodSize == neighbourhoodSize && a.totalRecommendations == totalRecommendations
    ensures a.minDataPieces == m.minDataPieces
    ensures userCount != 0 <==> a.avgDataPieces.Finite?
    ensures userCount != 0 <==> a.avgPrecision.Finite?
    ensures userCount != 0 <==> a.avgRecall.Finite?
    ensures userCount != 0 <==> a.notIdealPercent.Finite?
  {
    var count := userCount as real;
    AverageReport(
      neighbourhoodSize,
      totalRecommendations,
      Divide(m.totalDataPieces as real, count),
      m.minDataPieces,
      Times(Divide(m.totalNotIdealUsers as real, count), 100.0),
      Divide(m.totalPrecision, count),
      Divide(m.totalRecall, count))
  }

  /** With a non-zero user count, each average times the count gives back its total. */
  lemma AveragesTimesCount(m: Metrics, neighbourhoodSize: int, totalRecommendations: int, userCount: int)
    requires userCount != 0
    ensures var a := Averages(m, neighbourhoodSize, totalRecommendations, userCount);
      && a.avgDataPieces.value * userCount as real == m.totalDataPieces as real
      && a.avgPrecision.value * userCount as real == m.totalPrecision
      && a.avgRecall.value * userCount as real == m.totalRecall
      && a.notIdealPercent.value * userCount as real == 100.0 * m.totalNotIdealUsers as real
  {
    var count := userCount as real;
    DivideInverts(m.totalDataPieces as real, count);
    DivideInverts(m.totalPrecision, count);
    DivideInverts(m.totalRecall, count);
    DivideInverts(m.totalNotIdealUsers as real, count);
    var q := Divide(m.totalNotIdealUsers as real, count).value;
    assert q * 100.0 * count == 100.0 * (q * count);
  }

  /**
   * When the user count equals the number of users the loop visited (and is not zero), the mean
   * data count is the finite mean of all counts and is at least the reported minimum.
   */
  lemma AverageDataPiecesOfSnapshot(rs: seq<UserResult>, neighbourhoodSize: int, totalRecommendations: int)
    requires |rs| > 0
    ensures var a := Averages(Accumulate(rs), neighbourhoodSize, totalRecommendations, |rs|);
      && a.avgDataPieces == Finite(SumDataCounts(rs) as real / |rs| as real)
      && a.minDataPieces as real <= a.avgDataPieces.value
  {
    var m := Accumulate(rs);
    var n := |rs| as real;
    AccumulateTotals(rs);
    AccumulateMinimum(rs);
    SumDataCountsAtLeast(rs, m.minDataPieces);
    MeanAtLeast(SumDataCounts(rs), |rs|, m.minDataPieces);
  }

  /** A total of at least `count * b` has a mean of at least `b`. */
  lemma MeanAtLeast(total: int, count: nat, b: int)
    requires count > 0 && count * b <= total
    ensures b as real <= total as real / count as real
  {
    var c := count as real;
    assert (count * b) as real == c * b as real;
    assert c * b as real <= total as real;
    assert (c * b as real) / c == b as real;
  }

  /**
   * When the user count equals the number of users the loop visited (and is not zero) and the
   * scores lie in [0, 1], the mean precision and recall are finite and lie in [0, 1]; the mean
   * precision is at most the share of users whose precision is defined.
   */
  lemma AverageScoresOfSnapshot(rs: seq<UserResult>, neighbourhoodSize: int, totalRecommendations: int)
    requires |rs| > 0 && ScoresInUnitRange(rs)
    ensures var a := Averages(Accumulate(rs), neighbourhoodSize, totalRecommendations, |rs|);
      && a.avgPrecision.Finite? && 0.0 <= a.avgPrecision.value
      && a.avgPrecision.value <= |DefinedPrecision(rs)| as real / |rs| as real <= 1.0
      && a.avgRecall.Finite? && 0.0 <= a.avgRecall.value <= 1.0
  {
    var m := Accumulate(rs);
    var n := |rs| as real;
    AccumulateScoreBounds(rs);
    DivisionBounds(|DefinedPrecision(rs)| as real, m.totalPrecision, n);
    DivisionBounds(n, |DefinedPrecision(rs)| as real, n);
    DivisionBounds(n, m.totalRecall, n);
  }

  /**
   * When the user count equals the number of users the loop visited (and is not zero), the
   * below-threshold percentage is finite and lies in [0, 100].
   */
  lemma NotIdealPercentOfSnapshot(rs: seq<UserResult>, neighbourhoodSize: int, totalRecommendations: int)
    requires |rs| > 0
    ensures var a := Averages(Accumulate(rs), neighbourhoodSize, totalRecommendations, |rs|);
      a.notIdealPercent.Finite? && 0.0 <= a.notIdealPercent.value <= 100.0
  {
    var m := Accumulate(rs);
    var n := |rs| as real;
    AccumulateNotIdeal(rs);
    DivisionBounds(n, m.totalNotIdealUsers as real, n);
  }

  /** Dividing by a positive `n` keeps the order of `x` and `y` and the sign of `x`. */
  lemma DivisionBounds(y: real, x: real, n: real)
    requires n > 0.0
    ensures x <= y ==> x / n <= y / n
    ensures n / n == 1.0
    ensures 0.0 <= x ==> 0.0 <= x / n
  {
  }

  /**
   * With a user count of zero no average is a finite number: 0/0 is NaN and a positive total
   * over zero is infinite.  For an empty user loop all four averages are NaN.
   */
  lemma AveragesWithoutUsers(m: Metrics, neighbourhoodSize: int, totalRecommendations: int)
    ensures var a := Averages(m, neighbourhoodSize, totalRecommendations, 0);
      && !a.avgDataPieces.Finite? && !a.notIdealPercent.Finite?
      && !a.avgPrecision.Finite? && !a.avgRecall.Finite?
    ensures var a := Averages(Reset, neighbourhoodSize, totalRecommendations, 0);
      a.avgDataPieces == NaN && a.notIdealPercent == NaN && a.avgPrecision == NaN && a.avgRecall == NaN
  {
  }
}
