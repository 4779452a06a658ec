/**
 * The evaluation harness.  For every (algorithm, neighbourhood size, recommendation count)
 * triple it makes sure a trained engine file exists, asks the engine for each user's top
 * recommendations (excluding nothing), scores them, writes one report per user and one
 * aggregate report, and counts the triples done.
 *
 * The collaborators the harness only calls (engine file naming, algorithm naming, engine loading
 * and recommending, precision/recall scoring) are the function values of a `Collaborators`
 * record; the database is a `Store` snapshot; the file system is a map from path to document,
 * a path existing exactly when it is a key.
 */
module RecommendationEvaluation {
  import opened Wrappers
  import opened JavaNumbers
  import opened ReportPaths
  import opened EvaluationMetrics
  import opened Arithmetic

  datatype ScoredId = ScoredId(id: int, score: real)

  /** An item recommender: (user id, how many, item ids to exclude) to ranked scored ids. */
  type ItemRecommender = (int, int, set<int>) -> seq<ScoredId>

  datatype Scores = Scores(precision: Option<real>, recall: real)

  datatype Collaborators = Collaborators(
    engineName: (int, int) -> string,                // getEngineName(algorithm, neighbourhoodSize)
    algorithmName: int -> string,                    // getAlgorithmName(algorithm)
    itemRecommender: (int, int) -> ItemRecommender,  // createItemRecommender(algorithm, neighbourhoodSize)
    precisionRecall: (seq<int>, seq<int>) -> Scores) // new PrecisionRecall(recs, comparisonSet)

  /** What the harness reads from the ratings table. */
  datatype Store = Store(
    users: seq<int>,                     // the distinct user ids, in result-set order
    comparisonDataSet: int -> seq<int>,  // the movie ids a user rated
    userDataCount: int -> int,           // the number of ratings of a user
    userCount: int)                      // the separately queried count of distinct users

  datatype Config = Config(algorithm: int, neighbourhoodSize: int, totalRecommendations: int)

  datatype Document =
    | Directory
    | EngineFile(algorithm: int, neighbourhoodSize: int)
    | UserMetrics(result: UserResult)
    | AverageMetrics(report: AverageReport)

  type FileSystem = map<string, Document>

  /** One "FINISHED counter/total" progress line. */
  datatype Progress = Progress(counter: int, total: int, config: Config)

  function MovieIds(recs: seq<ScoredId>): seq<int> {
    seq(|recs|, i requires 0 <= i < |recs| => recs[i].id)
  }

  /**
   * The movie ids the recommender returns for a user, asked with an EMPTY exclusion set so that
   * movies the user already rated can be recommended: same length, same order.
   */
  method GetMovieRecommendations(userId: int, irec: ItemRecommender, totalRecommendations: int)
    returns (movies: seq<int>)
    ensures |movies| == |irec(userId, totalRecommendations, {})|
    ensures forall i :: 0 <= i < |movies| ==> movies[i] == irec(userId, totalRecommendations, {})[i].id
  {
    movies := [];
    var exclude: set<int> := {};
    var recs := irec(userId, totalRecommendations, exclude);
    for i := 0 to |recs|
      invariant |movies| == i
      invariant forall j :: 0 <= j < i ==> movies[j] == recs[j].id
    {
      movies := movies + [recs[i].id];
    }
  }

  /** What one pass of the user loop computes for `userId`. */
  function UserResultOf(env: Collaborators, store: Store, c: Config, userId: int): UserResult {
    var irec := env.itemRecommender(c.algorithm, c.neighbourhoodSize);
    var recs := MovieIds(irec(userId, c.totalRecommendations, {}));
    var scores := env.precisionRecall(recs, store.comparisonDataSet(userId));
    UserResult(userId, scores.precision, scores.recall, store.userDataCount(userId), recs)
  }

  /** The per-user results of one configuration, in user order. */
  function Results(env: Collaborators, store: Store, c: Config): seq<UserResult> {
    seq(|store.users|, i requires 0 <= i < |store.users| => UserResultOf(env, store, c, store.users[i]))
  }

  /** The file system after the engine-cache check: a missing engine file is built and written. */
  function WithEngine(fs: FileSystem, env: Collaborators, algorithm: int, neighbourhoodSize: int): FileSystem {
    var path := env.engineName(algorithm, neighbourhoodSize);
    if path in fs then fs else fs[path := EngineFile(algorithm, neighbourhoodSize)]
  }

  function MakeDirectory(fs: FileSystem, path: string): FileSystem {
    if path in fs then fs else fs[path := Directory]
  }

  function WithDirectories(fs: FileSystem, algorithmName: string, n: int, k: int): FileSystem {
    MakeDirectory(MakeDirectory(MakeDirectory(fs, RootMetricsDirectory), AlgorithmDirectory(algorithmName)),
                  MetricsDirectory(algorithmName, n, k))
  }

  function WithUserReports(fs: FileSystem, algorithmName: string, n: int, k: int, rs: seq<UserResult>): FileSystem {
    if rs == [] then fs
    else
      var last := rs[|rs| - 1];
      WithUserReports(fs, algorithmName, n, k, rs[..|rs| - 1])[UserMetricsPath(algorithmName, n, k, last.userId) := UserMetrics(last)]
  }

  /** The file system after one configuration has been evaluated. */
  function MetricsFiles(fs: FileSystem, env: Collaborators, store: Store, c: Config): FileSystem {
    var name := env.algorithmName(c.algorithm);
    var n, k := c.neighbourhoodSize, c.totalRecommendations;
    var rs := Results(env, store, c);
    var reports := WithUserReports(WithDirectories(WithEngine(fs, env, c.algorithm, n), name, n, k), name, n, k, rs);
    reports[AverageMetricsPath(name, n, k) := AverageMetrics(Averages(Accumulate(rs), n, k, store.userCount))]
  }

  /** The file system after the configurations `cs`, in order. */
  function SweepFiles(fs: FileSystem, env: Collaborators, store: Store, cs: seq<Config>): FileSystem {
    if cs == [] then fs else MetricsFiles(SweepFiles(fs, env, store, cs[..|cs| - 1]), env, store, cs[|cs| - 1])
  }

  /** The metric fields after the configurations `cs`: those of the last one, if any. */
  function MetricsAfter(initial: Metrics, env: Collaborators, store: Store, cs: seq<Config>): Metrics {
    if cs == [] then initial else Accumulate(Results(env, store, cs[|cs| - 1]))
  }

  // The configuration grid, in the order of the three nested loops of the sweep.

  function Line(algorithm: int, size: int, counts: seq<int>): seq<Config> {
    seq(|counts|, k requires 0 <= k < |counts| => Config(algorithm, size, counts[k]))
  }

  function Block(algorithm: int, sizes: seq<int>, counts: seq<int>): seq<Config> {
    if sizes == [] then [] else Block(algorithm, sizes[..|sizes| - 1], counts) + Line(algorithm, sizes[|sizes| - 1], counts)
  }

  function Grid(algorithms: seq<int>, sizes: seq<int>, counts: seq<int>): seq<Config> {
    if algorithms == [] then []
    else Grid(algorithms[..|algorithms| - 1], sizes, counts) + Block(algorithms[|algorithms| - 1], sizes, counts)
  }

  function Numbered(cs: seq<Config>, total: int): seq<Progress> {
    seq(|cs|, i requires 0 <= i < |cs| => Progress(i + 1, total, cs[i]))
  }

  lemma {:induction false} BlockLength(algorithm: int, sizes: seq<int>, counts: seq<int>)
    ensures |Block(algorithm, sizes, counts)| == |sizes| * |counts|
  {
    if sizes != [] {
      BlockLength(algorithm, sizes[..|sizes| - 1], counts);
      MultiplySuccessor(|sizes|, |sizes| - 1, |counts|);
    }
  }

  /** Where the count index `k` of size index `j` stands within one algorithm's block. */
  function Offset(j: nat, k: nat, countCount: nat): nat {
    j * countCount + k
  }

  /** Where the triple of indices (i, j, k) stands in the whole grid. */
  function Position(i: nat, j: nat, k: nat, sizeCount: nat, countCount: nat): nat {
    i * (sizeCount * countCount) + Offset(j, k, countCount)
  }

  lemma {:induction false} BlockAt(algorithm: int, sizes: seq<int>, counts: seq<int>, j: int, k: int)
    requires 0 <= j < |sizes| && 0 <= k < |counts|
    ensures |Block(algorithm, sizes, counts)| == |sizes| * |counts|
    ensures Offset(j, k, |counts|) < |Block(algorithm, sizes, counts)|
         && Block(algorithm, sizes, counts)[Offset(j, k, |counts|)] == Config(algorithm, sizes[j], counts[k])
  {
    var front := sizes[..|sizes| - 1];
    BlockLength(algorithm, sizes, counts);
    BlockLength(algorithm, front, counts);
    if j < |front| {
      BlockAt(algorithm, front, counts, j, k);
      assert front[j] == sizes[j];
    } else {
      assert j * |counts| == |front| * |counts|;
    }
  }

  lemma {:induction false} GridLength(algorithms: seq<int>, sizes: seq<int>, counts: seq<int>)
    ensures |Grid(algorithms, sizes, counts)| == |algorithms| * (|sizes| * |counts|)
  {
    if algorithms != [] {
      GridLength(algorithms[..|algorithms| - 1], sizes, counts);
      BlockLength(algorithms[|algorithms| - 1], sizes, counts);
      MultiplySuccessor(|algorithms|, |algorithms| - 1, |sizes| * |counts|);
    }
  }

  /**
   * The sweep's order: algorithm outermost, size in the middle, count innermost.  The triple
   * (algorithms[i], sizes[j], counts[k]) stands at position i * (|sizes| * |counts|) +
   * j * |counts| + k, and there are |algorithms| * |sizes| * |counts| triples.
   */
  lemma {:induction false} GridAt(algorithms: seq<int>, sizes: seq<int>, counts: seq<int>, i: int, j: int, k: int)
    requires 0 <= i < |algorithms| && 0 <= j < |sizes| && 0 <= k < |counts|
    ensures |Grid(algorithms, sizes, counts)| == |algorithms| * (|sizes| * |counts|)
    ensures Position(i, j, k, |sizes|, |counts|) < |Grid(algorithms, sizes, counts)|
         && Grid(algorithms, sizes, counts)[Position(i, j, k, |sizes|, |counts|)] == Config(algorithms[i], sizes[j], counts[k])
  {
    var front := algorithms[..|algorithms| - 1];
    var last := Block(algorithms[|algorithms| - 1], sizes, counts);
    var b := |sizes| * |counts|;
    var inner := Offset(j, k, |counts|);
    BlockAt(algorithms[|algorithms| - 1], sizes, counts, j, k);
    GridLength(algorithms, sizes, counts);
    GridLength(front, sizes, counts);
    assert Grid(algorithms, sizes, counts) == Grid(front, sizes, counts) + last;
    if i < |front| {
      GridAt(front, sizes, counts, i, j, k);
      assert front[i] == algorithms[i];
    } else {
      assert i * b == |front| * b;
      assert Grid(algorithms, sizes, counts)[i * b + inner] == last[inner];
    }
  }

  /**
   * The progress counter ends at |algorithms| times the announced total |sizes| * |counts|,
   * so with more than one algorithm it overshoots the total.
   */
  lemma CounterExceedsTotal(algorithms: seq<int>, sizes: seq<int>, counts: seq<int>)
    requires |sizes| * |counts| > 0
    ensures |Grid(algorithms, sizes, counts)| > |sizes| * |counts| <==> |algorithms| > 1
  {
    GridLength(algorithms, sizes, counts);
    MultiplyExceeds(|algorithms|, |sizes| * |counts|);
  }

  /**
   * The engine cache: after the check the engine file exists, a present file is never rebuilt,
   * and a second check with the same (algorithm, size) changes nothing.
   */
  lemma EngineBuiltAtMostOnce(fs: FileSystem, env: Collaborators, algorithm: int, neighbourhoodSize: int)
    ensures env.engineName(algorithm, neighbourhoodSize) in WithEngine(fs, env, algorithm, neighbourhoodSize)
    ensures env.engineName(algorithm, neighbourhoodSize) in fs ==> WithEngine(fs, env, algorithm, neighbourhoodSize) == fs
    ensures WithEngine(WithEngine(fs, env, algorithm, neighbourhoodSize), env, algorithm, neighbourhoodSize)
         == WithEngine(fs, env, algorithm, neighbourhoodSize)
    ensures forall p :: p in fs ==>
      p in WithEngine(fs, env, algorithm, neighbourhoodSize) && WithEngine(fs, env, algorithm, neighbourhoodSize)[p] == fs[p]
    ensures env.engineName(algorithm, neighbourhoodSize) !in fs ==>
      WithEngine(fs, env, algorithm, neighbourhoodSize)[env.engineName(algorithm, neighbourhoodSize)] == EngineFile(algorithm, neighbourhoodSize)
  {
  }

  /**
   * The average report of a configuration is labelled with its size and count, repeats the
   * accumulated minimum, and its averages are finite exactly when the queried user count is
   * not zero.
   */
  lemma AverageReportOfConfig(fs: FileSystem, env: Collaborators, store: Store, c: Config)
    ensures var avg := AverageMetricsPath(env.algorithmName(c.algorithm), c.neighbourhoodSize, c.totalRecommendations);
      var r := MetricsFiles(fs, env, store, c);
      && avg in r && r[avg].AverageMetrics?
      && r[avg].report.neighbourhoodSize == c.neighbourhoodSize
      && r[avg].report.totalRecommendations == c.totalRecommendations
      && r[avg].report.minDataPieces == Accumulate(Results(env, store, c)).minDataPieces
      && (store.userCount != 0 <==> r[avg].report.avgDataPieces.Finite?)
      && (store.userCount != 0 <==> r[avg].report.notIdealPercent.Finite?)
      && (store.userCount != 0 <==> r[avg].report.avgPrecision.Finite?)
      && (store.userCount != 0 <==> r[avg].report.avgRecall.Finite?)
  {
    var avg := AverageMetricsPath(env.algorithmName(c.algorithm), c.neighbourhoodSize, c.totalRecommendations);
    var a := Averages(Accumulate(Results(env, store, c)), c.neighbourhoodSize, c.totalRecommendations, store.userCount);
    assert MetricsFiles(fs, env, store, c)[avg] == AverageMetrics(a);
  }

  /**
   * The three guarded `mkdir` calls (root, algorithm, configuration): afterwards the three
   * directories exist, every file that existed is unchanged, and every new entry is a directory.
   */
  lemma DirectoriesCreated(fs: FileSystem, algorithmName: string, n: int, k: int)
    ensures var r := WithDirectories(fs, algorithmName, n, k);
      && r.Keys == fs.Keys + {RootMetricsDirectory, AlgorithmDirectory(algorithmName), MetricsDirectory(algorithmName, n, k)}
      && (forall p :: p in fs ==> r[p] == fs[p])
      && (forall p :: p in r && p !in fs ==> r[p] == Directory)
  {
  }

  lemma {:induction false} WithUserReportsKeepFile(fs: FileSystem, name: string, n: int, k: int, rs: seq<UserResult>, p: string)
    requires p in fs
    ensures p in WithUserReports(fs, name, n, k, rs)
  {
    if rs != [] {
      WithUserReportsKeepFile(fs, name, n, k, rs[..|rs| - 1], p);
    }
  }

  /**
   * Evaluating one configuration removes no file, and leaves its engine file and its report
   * directory in place.
   */
  lemma MetricsFilesKeepFile(fs: FileSystem, env: Collaborators, store: Store, c: Config, p: string)
    requires p in fs || p == env.engineName(c.algorithm, c.neighbourhoodSize)
                     || p == MetricsDirectory(env.algorithmName(c.algorithm), c.neighbourhoodSize, c.totalRecommendations)
    ensures p in MetricsFiles(fs, env, store, c)
  {
    var name := env.algorithmName(c.algorithm);
    var n, k := c.neighbourhoodSize, c.totalRecommendations;
    WithUserReportsKeepFile(WithDirectories(WithEngine(fs, env, c.algorithm, n), name, n, k), name, n, k, Results(env, store, c), p);
  }

  /** After a sweep, the engine file of every configuration swept exists. */
  lemma {:induction false} SweepFilesHoldEngine(fs: FileSystem, env: Collaborators, store: Store, cs: seq<Config>, i: int)
    requires 0 <= i < |cs|
    ensures env.engineName(cs[i].algorithm, cs[i].neighbourhoodSize) in SweepFiles(fs, env, store, cs)
  {
    var front := cs[..|cs| - 1];
    if i < |front| {
      SweepFilesHoldEngine(fs, env, store, front, i);
      assert front[i] == cs[i];
    }
    SweepFilesLastKeepFile(fs, env, store, cs, env.engineName(cs[i].algorithm, cs[i].neighbourhoodSize));
  }

  lemma SweepFilesLastKeepFile(fs: FileSystem, env: Collaborators, store: Store, cs: seq<Config>, p: string)
    requires cs != []
    requires p in SweepFiles(fs, env, store, cs[..|cs| - 1]) || p == env.engineName(cs[|cs| - 1].algorithm, cs[|cs| - 1].neighbourhoodSize)
    ensures p in SweepFiles(fs, env, store, cs)
  {
    MetricsFilesKeepFile(SweepFiles(fs, env, store, cs[..|cs| - 1]), env, store, cs[|cs| - 1], p);
  }

  /**
   * Across a sweep, an engine is built at most once: when configurations i < j share the
   * (algorithm, neighbourhood size) pair, the engine file is already present before step j,
   * so the cache check at step j finds it and leaves the file system as it is.
   */
  lemma EngineBuiltOncePerSweep(fs: FileSystem, env: Collaborators, store: Store, cs: seq<Config>, i: int, j: int)
    requires 0 <= i < j < |cs|
    requires cs[i].algorithm == cs[j].algorithm && cs[i].neighbourhoodSize == cs[j].neighbourhoodSize
    ensures env.engineName(cs[j].algorithm, cs[j].neighbourhoodSize) in SweepFiles(fs, env, store, cs[..j])
    ensures WithEngine(SweepFiles(fs, env, store, cs[..j]), env, cs[j].algorithm, cs[j].neighbourhoodSize)
         == SweepFiles(fs, env, store, cs[..j])
  {
    SweepFilesHoldEngine(fs, env, store, cs[..j], i);
  }

  /**
   * In the grid sweep, the configurations of one (algorithm, size) pair with counts k1 < k2
   * come in that order, and the later one finds the engine the earlier one left.
   */
  lemma EngineBuiltOncePerGrid(fs: FileSystem, env: Collaborators, store: Store,
                               algorithms: seq<int>, sizes: seq<int>, counts: seq<int>, a: int, j: int, k1: int, k2: int)
    requires 0 <= a < |algorithms| && 0 <= j < |sizes| && 0 <= k1 < k2 < |counts|
    ensures var grid := Grid(algorithms, sizes, counts);
      var later := Position(a, j, k2, |sizes|, |counts|);
      && later < |grid|
      && env.engineName(algorithms[a], sizes[j]) in SweepFiles(fs, env, store, grid[..later])
      && WithEngine(SweepFiles(fs, env, store, grid[..later]), env, algorithms[a], sizes[j]) == SweepFiles(fs, env, store, grid[..later])
  {
    var grid := Grid(algorithms, sizes, counts);
    GridAt(algorithms, sizes, counts, a, j, k1);
    GridAt(algorithms, sizes, counts, a, j, k2);
    EngineBuiltOncePerSweep(fs, env, store, grid, Position(a, j, k1, |sizes|, |counts|), Position(a, j, k2, |sizes|, |counts|));
  }

  predicate DistinctUsers(rs: seq<UserResult>) {
    forall i, j :: 0 <= i < j < |rs| ==> rs[i].userId != rs[j].userId
  }

  lemma {:induction false} WithUserReportsAt(fs: FileSystem, name: string, n: int, k: int, rs: seq<UserResult>, i: int)
    requires DistinctUsers(rs) && 0 <= i < |rs|
    ensures UserMetricsPath(name, n, k, rs[i].userId) in WithUserReports(fs, name, n, k, rs)
    ensures WithUserReports(fs, name, n, k, rs)[UserMetricsPath(name, n, k, rs[i].userId)] == UserMetrics(rs[i])
  {
    var front := rs[..|rs| - 1];
    if i < |rs| - 1 {
      assert DistinctUsers(front) by {
        forall a, b | 0 <= a < b < |front| ensures front[a].userId != front[b].userId {
          assert front[a] == rs[a] && front[b] == rs[b];
        }
      }
      WithUserReportsAt(fs, name, n, k, front, i);
      assert front[i] == rs[i];
      if UserMetricsPath(name, n, k, rs[i].userId) == UserMetricsPath(name, n, k, rs[|rs| - 1].userId) {
        UserMetricsPathInjective(name, n, k, rs[i].userId, n, k, rs[|rs| - 1].userId);
      }
    }
  }

  /**
   * With distinct user ids (the user query selects DISTINCT ids), each user's report file holds
   * that user's raw result: the precision exactly as calculated, `None` (NaN) included, since
   * the report is written before the NaN-to-zero substitution.
   */
  lemma UserReportsHoldRawResults(fs: FileSystem, env: Collaborators, store: Store, c: Config, i: int)
    requires forall a, b :: 0 <= a < b < |store.users| ==> store.users[a] != store.users[b]
    requires 0 <= i < |store.users|
    ensures var name := env.algorithmName(c.algorithm);
      var path := UserMetricsPath(name, c.neighbourhoodSize, c.totalRecommendations, store.users[i]);
      && path in MetricsFiles(fs, env, store, c)
      && MetricsFiles(fs, env, store, c)[path] == UserMetrics(UserResultOf(env, store, c, store.users[i]))
      && MetricsFiles(fs, env, store, c)[path].result.precision
         == env.precisionRecall(MovieIds(env.itemRecommender(c.algorithm, c.neighbourhoodSize)(store.users[i], c.totalRecommendations, {})),
                                store.comparisonDataSet(store.users[i])).precision
  {
    var name := env.algorithmName(c.algorithm);
    var n, k := c.neighbourhoodSize, c.totalRecommendations;
    var rs := Results(env, store, c);
    var base := WithDirectories(WithEngine(fs, env, c.algorithm, n), name, n, k);
    WithUserReportsAt(base, name, n, k, rs, i);
    UserMetricsPathIsNotAveragePath(name, n, k, store.users[i], n, k);
  }

  class Evaluation {
    var totalPrecision: real
    var totalRecall: real
    var totalDataPieces: int
    var minDataPieces: int
    var totalNotIdealUsers: int
    var files: FileSystem

    function Current(): Metrics
      reads this
    {
      Metrics(totalPrecision, totalRecall, totalDataPieces, minDataPieces, totalNotIdealUsers)
    }

    constructor (existing: FileSystem)
      ensures files == existing && Current() == Reset
    {
      totalPrecision, totalRecall := 0.0, 0.0;
      totalDataPieces, minDataPieces, totalNotIdealUsers := 0, INTEGER_MAX_VALUE, 0;
      files := existing;
    }

    method ResetVariables()
      modifies this
      ensures Current() == Reset && files == old(files)
    {
      totalPrecision := 0.0;
      totalRecall := 0.0;
      totalDataPieces := 0;
      minDataPieces := INTEGER_MAX_VALUE;
      totalNotIdealUsers := 0;
    }

    /**
     * Builds and writes an engine exactly when no file exists at its name; `built` tells which
     * branch ran.  A present file is trusted and never rebuilt.
     */
    method CreateEngineIfNecessary(env: Collaborators, algorithm: int, neighbourhoodSize: int)
      returns (built: bool)
      modifies this
      ensures built <==> env.engineName(algorithm, neighbourhoodSize) !in old(files)
      ensures files == WithEngine(old(files), env, algorithm, neighbourhoodSize)
      ensures Current() == old(Current())
    {
      var engineFile := env.engineName(algorithm, neighbourhoodSize);
      if engineFile !in files {
        // new MovieRecommenderEngine(neighbourhoodSize, algorithm).writeToFile(algorithm)
        files := files[engineFile := EngineFile(algorithm, neighbourhoodSize)];
        built := true;
      } else {
        built := false;
      }
    }

    method InitialiseDirectories(env: Collaborators, algorithm: int, neighbourhoodSize: int, totalRecommendations: int)
      modifies this
      ensures files == WithDirectories(old(files), env.algorithmName(algorithm), neighbourhoodSize, totalRecommendations)
      ensures Current() == old(Current())
    {
      var name := env.algorithmName(algorithm);
      var rootMetricsDirectory := RootMetricsDirectory;
      var metricsDirectory := AlgorithmDirectory(name);
      var thisRecommendationDirectory := MetricsDirectory(name, neighbourhoodSize, totalRecommendations);
      if rootMetricsDirectory !in files {
        files := files[rootMetricsDirectory := Directory];
      }
      if metricsDirectory !in files {
        files := files[metricsDirectory := Directory];
      }
      if thisRecommendationDirectory !in files {
        files := files[thisRecommendationDirectory := Directory];
      }
    }

    /** Writes (or overwrites) the user's report with the values as given. */
    method OutputUserMetrics(env: Collaborators, algorithm: int, userId: int, precision: Option<real>, recall: real,
                             dataPieces: int, recs: seq<int>, neighbourhoodSize: int, totalRecommendations: int)
      modifies this
      ensures files == old(files)[UserMetricsPath(env.algorithmName(algorithm), neighbourhoodSize, totalRecommendations, userId)
                                  := UserMetrics(UserResult(userId, precision, recall, dataPieces, recs))]
      ensures Current() == old(Current())
    {
      var userDocument := UserMetricsPath(env.algorithmName(algorithm), neighbourhoodSize, totalRecommendations, userId);
      files := files[userDocument := UserMetrics(UserResult(userId, precision, recall, dataPieces, recs))];
    }

    /** Writes (or overwrites) the aggregate report, dividing by the queried user count. */
    method OutputAverageMetrics(env: Collaborators, store: Store, algorithm: int, neighbourhoodSize: int, totalRecommendations: int)
      modifies this
      ensures files == old(files)[AverageMetricsPath(env.algorithmName(algorithm), neighbourhoodSize, totalRecommendations)
                                  := AverageMetrics(Averages(Current(), neighbourhoodSize, totalRecommendations, store.userCount))]
      ensures Current() == old(Current())
    {
      var metricsDocument := AverageMetricsPath(env.algorithmName(algorithm), neighbourhoodSize, totalRecommendations);
      var userCount := store.userCount;
      files := files[metricsDocument := AverageMetrics(Averages(Current(), neighbourhoodSize, totalRecommendations, userCount))];
    }

    /**
     * One pass of the user loop of `generateMetrics`: recommend, score, write the user's report
     * with the raw scores, then fold the user into the running metrics (NaN precision as zero).
     */
    method EvaluateUser(env: Collaborators, store: Store, algorithm: int, neighbourhoodSize: int, totalRecommendations: int,
                        irec: ItemRecommender, userId: int)
      requires irec == env.itemRecommender(algorithm, neighbourhoodSize)
      modifies this
      ensures Current() == AddUser(old(Current()), UserResultOf(env, store, Config(algorithm, neighbourhoodSize, totalRecommendations), userId))
      ensures files == old(files)[UserMetricsPath(env.algorithmName(algorithm), neighbourhoodSize, totalRecommendations, userId)
                                  := UserMetrics(UserResultOf(env, store, Config(algorithm, neighbourhoodSize, totalRecommendations), userId))]
    {
      var recs := GetMovieRecommendations(userId, irec, totalRecommendations);
      var pr := env.precisionRecall(recs, store.comparisonDataSet(userId));
      var precision := pr.precision;
      var recall := pr.recall;
      var dataCount := store.userDataCount(userId);
      assert recs == MovieIds(irec(userId, totalRecommendations, {}));
      OutputUserMetrics(env, algorithm, userId, precision, recall, dataCount, recs, neighbourhoodSize, totalRecommendations);
      // a NaN precision enters the total as zero
      if precision.None? {
        precision := Some(0.0);
      }
      totalPrecision := totalPrecision + precision.value;
      totalRecall := totalRecall + recall;
      totalDataPieces := totalDataPieces + dataCount;
      if dataCount < minDataPieces {
        minDataPieces := dataCount;
      }
      if dataCount < MIN_IDEAL_DATA_PIECES {
        totalNotIdealUsers := totalNotIdealUsers + 1;
      }
    }

    /**
     * Evaluates one configuration.  Afterwards the metric fields are the fold of all users'
     * results from the reset state, and the file system holds the engine, the directories, every
     * user's report and the aggregate report.
     */
    method GenerateMetrics(env: Collaborators, store: Store, neighbourhoodSize: int, totalRecommendations: int, algorithm: int)
      modifies this
      ensures Current() == Accumulate(Results(env, store, Config(algorithm, neighbourhoodSize, totalRecommendations)))
      ensures files == MetricsFiles(old(files), env, store, Config(algorithm, neighbourhoodSize, totalRecommendations))
    {
      ResetVariables();
      var _ := CreateEngineIfNecessary(env, algorithm, neighbourhoodSize);
      var irec := env.itemRecommender(algorithm, neighbourhoodSize);
      InitialiseDirectories(env, algorithm, neighbourhoodSize, totalRecommendations);
      EvaluateUsers(env, store, algorithm, neighbourhoodSize, totalRecommendations, irec);
      OutputAverageMetrics(env, store, algorithm, neighbourhoodSize, totalRecommendations);
    }

    /** The user loop of `generateMetrics`, from freshly reset metric fields. */
    method EvaluateUsers(env: Collaborators, store: Store, algorithm: int, neighbourhoodSize: int, totalRecommendations: int,
                         irec: ItemRecommender)
      requires irec == env.itemRecommender(algorithm, neighbourhoodSize)
      requires Current() == Reset
      modifies this
      ensures Current() == Accumulate(Results(env, store, Config(algorithm, neighbourhoodSize, totalRecommendations)))
      ensures files == WithUserReports(old(files), env.algorithmName(algorithm), neighbourhoodSize, totalRecommendations,
                                       Results(env, store, Config(algorithm, neighbourhoodSize, totalRecommendations)))
    {
      ghost var rs := Results(env, store, Config(algorithm, neighbourhoodSize, totalRecommendations));
      ghost var name := env.algorithmName(algorithm);
      var users := store.users;
      var u := 0;
      while u < |users|
        invariant 0 <= u <= |users|
        invariant Current() == Accumulate(rs[..u])
        invariant files == WithUserReports(old(files), name, neighbourhoodSize, totalRecommendations, rs[..u])
      {
        EvaluateUser(env, store, algorithm, neighbourhoodSize, totalRecommendations, irec, users[u]);
        AccumulatePrefix(rs, u);
        UserReportsPrefix(old(files), name, neighbourhoodSize, totalRecommendations, rs, u);
        u := u + 1;
      }
      assert rs[..u] == rs;
    }

    /**
     * The state of the sweep after the configurations `done`, starting from files `fs0` and
     * metric fields `m0`: counter, progress lines, files and metric fields all agree with `done`.
     */
    ghost predicate Swept(fs0: FileSystem, m0: Metrics, env: Collaborators, store: Store, done: seq<Config>,
                          counter: int, total: int, progress: seq<Progress>)
      reads this
    {
      && counter == |done|
      && progress == Numbered(done, total)
      && files == SweepFiles(fs0, env, store, done)
      && Current() == MetricsAfter(m0, env, store, done)
    }

    /**
     * The sweep of `main`: one `generateMetrics` per (algorithm, size, count) triple in nested
     * order, one progress line per triple numbered from 1, against an announced total of
     * |sizes| * |counts| only.
     */
    method RunSweep(env: Collaborators, store: Store, algorithms: seq<int>, sizes: seq<int>, counts: seq<int>)
      returns (counterMetrics: int, totalMetrics: int, progress: seq<Progress>)
      modifies this
      ensures totalMetrics == |sizes| * |counts|
      ensures counterMetrics == |algorithms| * totalMetrics == |Grid(algorithms, sizes, counts)|
      ensures progress == Numbered(Grid(algorithms, sizes, counts), totalMetrics)
      ensures files == SweepFiles(old(files), env, store, Grid(algorithms, sizes, counts))
      ensures Current() == MetricsAfter(old(Current()), env, store, Grid(algorithms, sizes, counts))
    {
      counterMetrics := 0;
      totalMetrics := |sizes| * |counts|;
      progress := [];
      ghost var fs0, m0 := files, Current();
      ghost var done: seq<Config> := [];
      var i := 0;
      while i < |algorithms|
        invariant 0 <= i <= |algorithms|
        invariant done == Grid(algorithms[..i], sizes, counts)
        invariant Swept(fs0, m0, env, store, done, counterMetrics, totalMetrics, progress)
      {
        counterMetrics, progress, done := SweepSizes(env, store, algorithms[i], sizes, counts, totalMetrics,
                                                     counterMetrics, progress, fs0, m0, done);
        GridStep(algorithms, sizes, counts, i);
        i := i + 1;
      }
      assert algorithms[..i] == algorithms;
      GridLength(algorithms, sizes, counts);
    }

    /** The middle loop of the sweep, over neighbourhood sizes for one algorithm. */
    method SweepSizes(env: Collaborators, store: Store, algorithm: int, sizes: seq<int>, counts: seq<int>, totalMetrics: int,
                      counter0: int, progress0: seq<Progress>, ghost fs0: FileSystem, ghost m0: Metrics, ghost done0: seq<Config>)
      returns (counterMetrics: int, progress: seq<Progress>, ghost done: seq<Config>)
      requires Swept(fs0, m0, env, store, done0, counter0, totalMetrics, progress0)
      modifies this
      ensures done == done0 + Block(algorithm, sizes, counts)
      ensures Swept(fs0, m0, env, store, done, counterMetrics, totalMetrics, progress)
    {
      counterMetrics, progress, done := counter0, progress0, done0;
      assert sizes[..0] == [];
      var j := 0;
      while j < |sizes|
        invariant 0 <= j <= |sizes|
        invariant done == done0 + Block(algorithm, sizes[..j], counts)
        invariant Swept(fs0, m0, env, store, done, counterMetrics, totalMetrics, progress)
      {
        counterMetrics, progress, done := SweepCounts(env, store, algorithm, sizes[j], counts, totalMetrics,
                                                      counterMetrics, progress, fs0, m0, done);
        BlockStep(done0, algorithm, sizes, counts, j);
        j := j + 1;
      }
      assert sizes[..j] == sizes;
    }

    /** One pass of the innermost loop: evaluate `c`, count it and announce it. */
    method SweepOne(env: Collaborators, store: Store, c: Config, totalMetrics: int,
                    counter0: int, progress0: seq<Progress>, ghost fs0: FileSystem, ghost m0: Metrics, ghost done0: seq<Config>)
      returns (counterMetrics: int, progress: seq<Progress>, ghost done: seq<Config>)
      requires Swept(fs0, m0, env, store, done0, counter0, totalMetrics, progress0)
      modifies this
      ensures done == done0 + [c]
      ensures Swept(fs0, m0, env, store, done, counterMetrics, totalMetrics, progress)
    {
      GenerateMetrics(env, store, c.neighbourhoodSize, c.totalRecommendations, c.algorithm);
      counterMetrics := counter0 + 1;
      progress := progress0 + [Progress(counterMetrics, totalMetrics, c)];
      SweepFilesStep(fs0, env, store, done0, c);
      NumberedStep(done0, c, totalMetrics);
      done := done0 + [c];
    }

    /** The innermost loop of the sweep, over recommendation counts for one (algorithm, size). */
    method SweepCounts(env: Collaborators, store: Store, algorithm: int, size: int, counts: seq<int>, totalMetrics: int,
                       counter0: int, progress0: seq<Progress>, ghost fs0: FileSystem, ghost m0: Metrics, ghost done0: seq<Config>)
      returns (counterMetrics: int, progress: seq<Progress>, ghost done: seq<Config>)
      requires Swept(fs0, m0, env, store, done0, counter0, totalMetrics, progress0)
      modifies this
      ensures done == done0 + Line(algorithm, size, counts)
      ensures Swept(fs0, m0, env, store, done, counterMetrics, totalMetrics, progress)
    {
      counterMetrics, progress, done := counter0, progress0, done0;
      var k := 0;
      while k < |counts|
        invariant 0 <= k <= |counts|
        invariant done == done0 + Line(algorithm, size, counts[..k])
        invariant Swept(fs0, m0, env, store, done, counterMetrics, totalMetrics, progress)
      {
        var c := Config(algorithm, size, counts[k]);
        counterMetrics, progress, done := SweepOne(env, store, c, totalMetrics, counterMetrics, progress, fs0, m0, done);
        LineStep(done0, algorithm, size, counts, k);
        k := k + 1;
      }
      assert counts[..k] == counts;
    }
  }

  lemma LineStep(done: seq<Config>, algorithm: int, size: int, counts: seq<int>, k: int)
    requires 0 <= k < |counts|
    ensures done + Line(algorithm, size, counts[..k + 1]) == (done + Line(algorithm, size, counts[..k])) + [Config(algorithm, size, counts[k])]
  {
    assert Line(algorithm, size, counts[..k + 1]) == Line(algorithm, size, counts[..k]) + [Config(algorithm, size, counts[k])];
  }

  lemma GridStep(algorithms: seq<int>, sizes: seq<int>, counts: seq<int>, i: int)
    requires 0 <= i < |algorithms|
    ensures Grid(algorithms[..i + 1], sizes, counts) == Grid(algorithms[..i], sizes, counts) + Block(algorithms[i], sizes, counts)
  {
    assert algorithms[..i + 1][..i] == algorithms[..i];
  }

  lemma BlockStep(done: seq<Config>, algorithm: int, sizes: seq<int>, counts: seq<int>, j: int)
    requires 0 <= j < |sizes|
    ensures done + Block(algorithm, sizes[..j + 1], counts) == (done + Block(algorithm, sizes[..j], counts)) + Line(algorithm, sizes[j], counts)
  {
    assert sizes[..j + 1][..j] == sizes[..j];
  }

  lemma SweepFilesStep(fs: FileSystem, env: Collaborators, store: Store, done: seq<Config>, c: Config)
    ensures SweepFiles(fs, env, store, done + [c]) == MetricsFiles(SweepFiles(fs, env, store, done), env, store, c)
  {
    assert (done + [c])[..|done|] == done;
  }

  lemma NumberedStep(done: seq<Config>, c: Config, total: int)
    ensures Numbered(done + [c], total) == Numbered(done, total) + [Progress(|done| + 1, total, c)]
  {
  }

  lemma AccumulatePrefix(rs: seq<UserResult>, u: int)
    requires 0 <= u < |rs|
    ensures Accumulate(rs[..u + 1]) == AddUser(Accumulate(rs[..u]), rs[u])
  {
    assert rs[..u + 1][..u] == rs[..u];
  }

  lemma UserReportsPrefix(fs: FileSystem, name: string, n: int, k: int, rs: seq<UserResult>, u: int)
    requires 0 <= u < |rs|
    ensures WithUserReports(fs, name, n, k, rs[..u + 1])
         == WithUserReports(fs, name, n, k, rs[..u])[UserMetricsPath(name, n, k, rs[u].userId) := UserMetrics(rs[u])]
  {
    assert rs[..u + 1][..u] == rs[..u];
  }
}
