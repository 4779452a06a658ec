/**
 * Tag documents: one file per user listing the user's tags one per line, with running tag
 * statistics (total, maximum, minimum) updated after every user, and a metrics file reporting
 * them together with the user count and the mean number of tags per user.
 *
 * The statistics are doubles in the program but only ever hold whole numbers (counts, and the
 * initial minimum Double.MAX_VALUE, which is itself a whole number), so they are integers here.
 */
module CreateTagsDocuments {
  import opened JavaText
  import opened JavaNumbers
  import opened Arithmetic

  /** Double.MAX_VALUE, (2 - 2^-52) * 2^1023 = 2^1024 - 2^971, written out exactly. */
  const DOUBLE_MAX_VALUE: int :=
    0xFFFFFFFFFFFFF800_0000000000000000_0000000000000000_0000000000000000_0000000000000000_0000000000000000_0000000000000000_0000000000000000_0000000000000000_0000000000000000_0000000000000000_0000000000000000_0000000000000000_0000000000000000_0000000000000000_0000000000000000

  datatype TagStats = TagStats(totalTags: int, maxTags: int, minTags: int)

  /** The statistics before any user: no tags, maximum 0, minimum Double.MAX_VALUE. */
  const Initial: TagStats := TagStats(0, 0, DOUBLE_MAX_VALUE)

  /**
   * The update after a user with `tagCounter` tags: the tags are added to the total, and
   * then a new maximum is recorded or else a new minimum; never both.
   */
  function RecordUser(s: TagStats, tagCounter: int): (r: TagStats)
    ensures r.totalTags == s.totalTags + tagCounter
    ensures r.maxTags >= s.maxTags && r.maxTags >= tagCounter
    ensures r.maxTags == s.maxTags || r.maxTags == tagCounter
    ensures r.minTags <= s.minTags
    ensures r.minTags != s.minTags ==> r.minTags == tagCounter && tagCounter <= s.maxTags
  {
    var totalTags := s.totalTags + tagCounter;
    if tagCounter > s.maxTags then TagStats(totalTags, tagCounter, s.minTags)
    else if tagCounter < s.minTags then TagStats(totalTags, s.maxTags, tagCounter)
    else TagStats(totalTags, s.maxTags, s.minTags)
  }

  /** The statistics after users with the given tag counts, in order. */
  function RecordUsers(s: TagStats, counts: seq<nat>): TagStats {
    if counts == [] then s else RecordUser(RecordUsers(s, counts[..|counts| - 1]), counts[|counts| - 1])
  }

  /**
   * One user: the total grows by exactly the user's count, the maximum becomes the larger of
   * the old maximum and the count, and the minimum becomes the count exactly when the count is
   * below the old minimum and does not exceed the old maximum.
   */
  lemma RecordUserEffect(s: TagStats, c: int)
    ensures RecordUser(s, c).totalTags == s.totalTags + c
    ensures RecordUser(s, c).maxTags >= s.maxTags && RecordUser(s, c).maxTags >= c
    ensures RecordUser(s, c).maxTags == s.maxTags || RecordUser(s, c).maxTags == c
    ensures RecordUser(s, c).minTags != s.minTags <==> c < s.minTags && c <= s.maxTags
    ensures RecordUser(s, c).minTags != s.minTags ==> RecordUser(s, c).minTags == c
  {
  }

  /** A user who sets a new maximum never lowers the minimum, however few tags it has. */
  lemma NewMaximumKeepsMinimum(s: TagStats, c: int)
    requires c > s.maxTags
    ensures RecordUser(s, c).minTags == s.minTags
    ensures c < s.minTags ==> RecordUser(s, c).minTags > c
  {
  }

  /** So from the initial statistics the first user with a tag leaves the minimum at MAX_VALUE. */
  lemma FirstUserLeavesMinimum(c: int)
    requires c >= 1
    ensures RecordUser(Initial, c) == TagStats(c, c, DOUBLE_MAX_VALUE)
  {
  }

  /** The maximum never decreases and the minimum never increases. */
  lemma {:induction false} RecordUsersMonotone(s: TagStats, counts: seq<nat>)
    ensures RecordUsers(s, counts).maxTags >= s.maxTags
    ensures RecordUsers(s, counts).minTags <= s.minTags
  {
    if counts != [] {
      RecordUsersMonotone(s, counts[..|counts| - 1]);
    }
  }

  // Reference definitions, written without the running state.

  function Sum(counts: seq<nat>): nat {
    if counts == [] then 0 else Sum(counts[..|counts| - 1]) + counts[|counts| - 1]
  }

  /** The largest count, or 0 for no users. */
  function MaxOf(counts: seq<nat>): (m: nat)
    ensures forall i :: 0 <= i < |counts| ==> counts[i] <= m
    ensures m == 0 || exists i :: 0 <= i < |counts| && counts[i] == m
  {
    if counts == [] then 0
    else
      var m := MaxOf(counts[..|counts| - 1]);
      assert forall i :: 0 <= i < |counts| - 1 ==> counts[..|counts| - 1][i] == counts[i];
      if counts[|counts| - 1] > m then counts[|counts| - 1] else m
  }

  /** From the initial statistics: the total is the sum of the counts and the maximum the largest. */
  lemma {:induction false} RecordUsersTotals(counts: seq<nat>)
    ensures RecordUsers(Initial, counts).totalTags == Sum(counts)
    ensures RecordUsers(Initial, counts).maxTags == MaxOf(counts)
  {
    if counts != [] {
      RecordUsersTotals(counts[..|counts| - 1]);
    }
  }

  /** From the initial statistics the minimum is MAX_VALUE or one of the counts. */
  lemma {:induction false} RecordUsersMinimumIsACount(counts: seq<nat>)
    ensures var m := RecordUsers(Initial, counts).minTags;
      m == DOUBLE_MAX_VALUE || exists i :: 0 <= i < |counts| && counts[i] == m
  {
    if counts != [] {
      var front := counts[..|counts| - 1];
      RecordUsersMinimumIsACount(front);
      var m := RecordUsers(Initial, front).minTags;
      if m != DOUBLE_MAX_VALUE {
        var i :| 0 <= i < |front| && front[i] == m;
        assert counts[i] == m;
      }
    }
  }

  /**
   * The minimum is at most every count that did not exceed the maximum of the counts before
   * it; a count that set a new maximum may be below the reported minimum.
   */
  lemma {:induction false} RecordUsersMinimumBound(counts: seq<nat>, i: int)
    requires 0 <= i < |counts| && counts[i] <= MaxOf(counts[..i])
    ensures RecordUsers(Initial, counts).minTags <= counts[i]
  {
    var front := counts[..|counts| - 1];
    var c := counts[|counts| - 1];
    if i < |front| {
      assert front[i] == counts[i] && front[..i] == counts[..i];
      RecordUsersMinimumBound(front, i);
    } else {
      assert counts[..i] == front;
      RecordUsersTotals(front);
    }
  }

  predicate StrictlyIncreasing(counts: seq<nat>) {
    forall i, j :: 0 <= i < j < |counts| ==> counts[i] < counts[j]
  }

  /**
   * When every user has more tags than all before it (and the first has at least one), each
   * user sets a new maximum and the minimum is never recorded: it stays MAX_VALUE, which the
   * metrics file prints as -1.
   */
  lemma {:induction false} IncreasingCountsHideMinimum(counts: seq<nat>)
    requires StrictlyIncreasing(counts) && (|counts| > 0 ==> counts[0] >= 1)
    ensures RecordUsers(Initial, counts).minTags == DOUBLE_MAX_VALUE
    ensures RoundToInt(RecordUsers(Initial, counts).minTags) == -1
  {
    if counts != [] {
      var front := counts[..|counts| - 1];
      assert StrictlyIncreasing(front) by {
        forall i, j | 0 <= i < j < |front| ensures front[i] < front[j] {
          assert front[i] == counts[i] && front[j] == counts[j];
        }
      }
      IncreasingCountsHideMinimum(front);
      RecordUsersTotals(front);
      if front != [] {
        var k :| 0 <= k < |front| && front[k] == MaxOf(front);
        assert front[k] == counts[k];
      }
    }
    RoundToIntSaturates(DOUBLE_MAX_VALUE);
  }

  /** What the metrics file reports. */
  datatype TagReport = TagReport(totalUsers: int, totalTags: int, maxTags: int, minTags: int, mean: Double)

  /** `(int) Math.round` of each statistic, and the mean as a double division by the user count. */
  function Report(s: TagStats, totalUsers: int): (r: TagReport)
    ensures totalUsers != 0 ==> r.mean == Finite(s.totalTags as real / totalUsers as real)
    ensures r.mean == NaN <==> totalUsers == 0 && s.totalTags == 0
    ensures 0 <= s.totalTags <= INTEGER_MAX_VALUE ==> r.totalTags == s.totalTags
    ensures 0 <= s.maxTags <= INTEGER_MAX_VALUE ==> r.maxTags == s.maxTags
    ensures 0 <= s.minTags <= INTEGER_MAX_VALUE ==> r.minTags == s.minTags
    ensures 0 <= totalUsers <= INTEGER_MAX_VALUE ==> r.totalUsers == totalUsers
    ensures s.minTags > LONG_MAX_VALUE ==> r.minTags == -1
  {
    TagReport(RoundToInt(totalUsers), RoundToInt(s.totalTags), RoundToInt(s.maxTags), RoundToInt(s.minTags),
              Divide(s.totalTags as real, totalUsers as real))
  }

  lemma MaxOfPrefix(counts: seq<nat>)
    requires counts != []
    ensures MaxOf(counts[..|counts| - 1]) <= MaxOf(counts)
  {
    var front := counts[..|counts| - 1];
    if front != [] {
      var k :| 0 <= k < |front| && front[k] == MaxOf(front);
      assert front[k] == counts[k];
    }
  }

  lemma {:induction false} SumAtMostMaximum(counts: seq<nat>)
    ensures Sum(counts) <= |counts| * MaxOf(counts)
  {
    if counts != [] {
      var front := counts[..|counts| - 1];
      var m, n := MaxOf(counts), |front|;
      SumAtMostMaximum(front);
      MaxOfPrefix(counts);
      MultiplyMonotone(n, MaxOf(front), m);
      MultiplySuccessor(|counts|, n, m);
    }
  }

  /** A count-weighted total below `n` times a bound has a mean in [0, bound]. */
  lemma MeanBounds(total: nat, n: nat, bound: nat)
    requires n > 0 && total <= n * bound
    ensures 0.0 <= total as real / n as real <= bound as real
  {
    CastProduct(n, bound);
    var q := total as real / n as real;
    assert q * n as real == total as real;
  }

  /**
   * When the user count is the number of users recorded, the mean is a finite value between 0
   * and the maximum; with no users it is not finite (0/0 is NaN).
   */
  lemma MeanWithinRange(counts: seq<nat>)
    ensures |counts| > 0 ==> var mean := Report(RecordUsers(Initial, counts), |counts|).mean;
      mean.Finite? && 0.0 <= mean.value <= MaxOf(counts) as real
    ensures |counts| == 0 ==> Report(RecordUsers(Initial, counts), |counts|).mean == NaN
  {
    RecordUsersTotals(counts);
    if |counts| > 0 {
      SumAtMostMaximum(counts);
      MeanBounds(Sum(counts), |counts|, MaxOf(counts));
    }
  }

  function UserTagsPath(uID: int): string {
    "userTags/" + (IntToString(uID) + ".dat")
  }

  const MetricsPath: string := "userTags/metrics.dat"

  /** Distinct users get distinct files, and none of them is the metrics file. */
  lemma UserTagsPathsDistinct(u: int, u': int)
    ensures UserTagsPath(u) == UserTagsPath(u') ==> u == u'
    ensures UserTagsPath(u) != MetricsPath
  {
    var su, su' := IntToString(u), IntToString(u');
    if UserTagsPath(u) == UserTagsPath(u') {
      CancelPrefix("userTags/", su + ".dat", su' + ".dat");
      NumeralSplit(su, ".dat", su', ".dat");
      IntToStringInjective(u, u');
    }
    assert (su + ".dat")[0] == su[0];
    if UserTagsPath(u) == MetricsPath {
      assert MetricsPath == "userTags/" + "metrics.dat";
      CancelPrefix("userTags/", su + ".dat", "metrics.dat");
      assert false;
    }
  }

  datatype TagDocument = UserTags(tags: seq<string>) | TagMetrics(report: TagReport)

  class TagsDocuments {
    var totalUsers: int
    var totalTags: int
    var maxTags: int
    var minTags: int
    var files: map<string, TagDocument>

    function Stats(): TagStats
      reads this
    {
      TagStats(totalTags, maxTags, minTags)
    }

    constructor (existing: map<string, TagDocument>)
      ensures Stats() == Initial && totalUsers == 0 && files == existing
    {
      totalUsers, totalTags, maxTags, minTags := 0, 0, 0, DOUBLE_MAX_VALUE;
      files := existing;
    }

    /**
     * Writes the user's tags, one per line, counting them into `tagCounter` and the total, then
     * records the count as a new maximum or else a new minimum.
     */
    method CreateUserDocument(uID: int, result: seq<string>)
      modifies this
      ensures Stats() == RecordUser(old(Stats()), |result|)
      ensures files == old(files)[UserTagsPath(uID) := UserTags(result)]
      ensures totalUsers == old(totalUsers)
    {
      var userDocument := UserTagsPath(uID);
      var written: seq<string> := [];
      var tagCounter := 0;
      while tagCounter < |result|
        invariant 0 <= tagCounter <= |result|
        invariant written == result[..tagCounter]
        invariant totalTags == old(totalTags) + tagCounter
        invariant maxTags == old(maxTags) && minTags == old(minTags)
        invariant totalUsers == old(totalUsers) && files == old(files)
      {
        written := written + [result[tagCounter]];
        tagCounter := tagCounter + 1;
        totalTags := totalTags + 1;
      }
      assert written == result;
      files := files[userDocument := UserTags(written)];
      if tagCounter > maxTags {
        maxTags := tagCounter;
      } else if tagCounter < minTags {
        minTags := tagCounter;
      }
    }

    /** Stores the user count and writes the metrics file from the current statistics. */
    method CreateMetricsDocument(userCount: int)
      modifies this
      ensures totalUsers == userCount && Stats() == old(Stats())
      ensures files == old(files)[MetricsPath := TagMetrics(Report(Stats(), userCount))]
    {
      totalUsers := userCount;
      var metricsDocument := MetricsPath;
      files := files[metricsDocument := TagMetrics(Report(Stats(), totalUsers))];
    }
  }
}
