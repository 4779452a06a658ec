/**
 * The report locations of the evaluation harness: one directory per algorithm name and per
 * (neighbourhood size, recommendation count) pair, holding one `<userId>.dat` file per user
 * and one `average.dat` file.  `java.io.File` drops a trailing separator, so the directory
 * written as ".../neighbours<n>top<k>/" is the path without the final '/'.
 */
module ReportPaths {
  import opened JavaText

  const RootMetricsDirectory: string := "metrics"

  function AlgorithmDirectory(algorithmName: string): string {
    RootMetricsDirectory + "/" + algorithmName
  }

  /** The common beginning of every path below one algorithm's directory. */
  function SizesPrefix(algorithmName: string): string {
    AlgorithmDirectory(algorithmName) + "/neighbours"
  }

  // The paths below are the same strings as the Java left-to-right concatenations; they are
  // grouped from the right so that the parts after the common prefix stand on their own.

  /** "metrics/<alg>/neighbours<n>top<k>" */
  function MetricsDirectory(algorithmName: string, neighbourhoodSize: int, totalRecommendations: int): string {
    SizesPrefix(algorithmName)
      + (IntToString(neighbourhoodSize) + ("top" + IntToString(totalRecommendations)))
  }

  /** "metrics/<alg>/neighbours<n>top<k>/<userId>.dat" */
  function UserMetricsPath(algorithmName: string, neighbourhoodSize: int, totalRecommendations: int, userId: int): string {
    SizesPrefix(algorithmName)
      + (IntToString(neighbourhoodSize) + ("top" + (IntToString(totalRecommendations)
      + ("/" + (IntToString(userId) + ".dat")))))
  }

  /** "metrics/<alg>/neighbours<n>top<k>/average.dat" */
  function AverageMetricsPath(algorithmName: string, neighbourhoodSize: int, totalRecommendations: int): string {
    SizesPrefix(algorithmName)
      + (IntToString(neighbourhoodSize) + ("top" + (IntToString(totalRecommendations) + "/average.dat")))
  }

  /**
   * Distinct (neighbourhood size, recommendation count) pairs get distinct directories:
   * decimal renderings contain no 't', so "top" marks where the size ends.
   */
  lemma MetricsDirectoryInjective(algorithmName: string, n: int, k: int, n': int, k': int)
    requires MetricsDirectory(algorithmName, n, k) == MetricsDirectory(algorithmName, n', k')
    ensures n == n' && k == k'
  {
    CancelPrefix(SizesPrefix(algorithmName), IntToString(n) + ("top" + IntToString(k)),
                 IntToString(n') + ("top" + IntToString(k')));
    NumeralSplit(IntToString(n), "top" + IntToString(k), IntToString(n'), "top" + IntToString(k'));
    IntToStringInjective(n, n');
    CancelPrefix("top", IntToString(k), IntToString(k'));
    IntToStringInjective(k, k');
  }

  /**
   * A per-user path names its configuration and its user: two equal per-user paths below the
   * same algorithm name have the same size, count and user id.
   */
  lemma UserMetricsPathInjective(algorithmName: string, n: int, k: int, u: int, n': int, k': int, u': int)
    requires UserMetricsPath(algorithmName, n, k, u) == UserMetricsPath(algorithmName, n', k', u')
    ensures n == n' && k == k' && u == u'
  {
    var sn, sk, su := IntToString(n), IntToString(k), IntToString(u);
    var sn', sk', su' := IntToString(n'), IntToString(k'), IntToString(u');
    CancelPrefix(SizesPrefix(algorithmName), sn + ("top" + (sk + ("/" + (su + ".dat")))),
                 sn' + ("top" + (sk' + ("/" + (su' + ".dat")))));
    NumeralSplit(sn, "top" + (sk + ("/" + (su + ".dat"))), sn', "top" + (sk' + ("/" + (su' + ".dat"))));
    CancelPrefix("top", sk + ("/" + (su + ".dat")), sk' + ("/" + (su' + ".dat")));
    NumeralSplit(sk, "/" + (su + ".dat"), sk', "/" + (su' + ".dat"));
    CancelPrefix("/", su + ".dat", su' + ".dat");
    NumeralSplit(su, ".dat", su', ".dat");
    IntToStringInjective(n, n');
    IntToStringInjective(k, k');
    IntToStringInjective(u, u');
  }

  /** No per-user report can overwrite an aggregate report of the same algorithm, and vice versa. */
  lemma UserMetricsPathIsNotAveragePath(algorithmName: string, n: int, k: int, u: int, n': int, k': int)
    ensures UserMetricsPath(algorithmName, n, k, u) != AverageMetricsPath(algorithmName, n', k')
  {
    var sn, sk, su := IntToString(n), IntToString(k), IntToString(u);
    var sn', sk' := IntToString(n'), IntToString(k');
    assert (su + ".dat")[0] == su[0];  // a numeral character, where "average.dat" has an 'a'
    if UserMetricsPath(algorithmName, n, k, u) == AverageMetricsPath(algorithmName, n', k') {
      CancelPrefix(SizesPrefix(algorithmName), sn + ("top" + (sk + ("/" + (su + ".dat")))),
                   sn' + ("top" + (sk' + "/average.dat")));
      NumeralSplit(sn, "top" + (sk + ("/" + (su + ".dat"))), sn', "top" + (sk' + "/average.dat"));
      CancelPrefix("top", sk + ("/" + (su + ".dat")), sk' + "/average.dat");
      assert "/average.dat" == "/" + "average.dat";
      NumeralSplit(sk, "/" + (su + ".dat"), sk', "/" + "average.dat");
      CancelPrefix("/", su + ".dat", "average.dat");
      assert false;
    }
  }
}
