# Movie recommender evaluation: a Dafny model of its bookkeeping

The repository evaluates collaborative-filtering and topic-model movie recommenders against a
MySQL copy of a tagged movie-ratings data set. This project models the parts of three Java
classes that compute something, and proves what they promise.

- **`RecommendationEvaluation`** is the evaluation harness (`recommendation_evaluation.dfy`,
  `evaluation_metrics.dfy`, `report_paths.dfy`).
  - It sweeps every (algorithm, neighbourhood size, recommendation count) triple in nested
    order and keeps a "FINISHED counter/total" progress counter.
  - It builds a trained engine file only when none exists at the engine's name.
  - It asks the item recommender for each user's top recommendations, passing an empty
    exclusion set.
  - It scores each user and writes the user's report with the raw scores. It then folds the
    user into running totals: a NaN precision counts as zero, the minimum data count is kept,
    and users with fewer than 20 data pieces are counted.
  - It writes an aggregate report whose averages divide by a separately queried user count.
  - Every report path is built from the algorithm name, the size and the count.
- **`ReadInDat`** loads the tag data set (`read_in_dat.dfy`).
  - `normaliseStrings` upper-cases the first character, then strips `\s` and `\W`.
  - `readData` selects a table by file name, skips the header line, splits each further line at
    its tabs and turns it into one row of 3 or 2 normalised fields. A file that opens but has an
    unknown name ends in a null-pointer exception. A file that cannot be opened raises
    `FileNotFoundException`, which the handler catches, so nothing is inserted.
- **`CreateTagsDocuments`** writes one tag document per user (`create_tags_documents.dfy`).
  - It counts each user's tags and updates the running total, maximum and minimum. The update
    is `if (count > max) … else if (count < min) …`, so a user who sets a new maximum is never
    recorded as a minimum.
  - The metrics file prints the statistics through `(int) Math.round` and the mean as a double
    division by the user count.

Supporting modules:

- `java_text.dfy`: Java's decimal rendering of an `int`, proved injective.
- `java_numbers.dfy`: double division, including by zero, and `(int) Math.round`.
- `arithmetic.dfy`: multiplication facts.
- `wrappers.dfy`: `Option` and `Result`.

How the outside world is represented:

- **Classes with mutable state.** The harness's static fields are the fields of class
  `Evaluation`. The tag counters are the fields of class `TagsDocuments`. The loaded tables are
  the field of class `TagDatabase`.
- **The file system** is a map from path to document. A path exists exactly when it is a key.
- **Database query results** are inputs:
  - `Store`: the distinct users, each user's comparison set and data count, and the user count.
  - The lines of a `.dat` file.
  - A user's tag rows.
- **Code that is only called** is function values of a `Collaborators` record: engine naming,
  algorithm naming, engine loading and recommending, and precision/recall scoring.

Each method is proved against a specification function:

- `Accumulate` for the user loop.
- `Grid`, `Numbered`, `SweepFiles` and `MetricsAfter` for the sweep.
- `Rows` and `ReadDataResult` for `readData`.
- `Import` for `importTagData`.
- `RecordUser` for the tag statistics of `createUserDocument`. `RecordUsers`, the fold of
  `RecordUser` over a list of users, is the reference definition the tag-statistics lemmas are
  about; no method is proved against it.

Below, `#xs` is the length of the list `xs`. The lemmas relate those functions to reference definitions written without loop state: sums,
the minimum, the below-threshold set, the maximum, and the position of each triple in the grid.

Nothing guards against a zero user count. `userCount` is a `double`
(`RecommendationEvaluation.java`, line 481), so the averages are double divisions and give NaN
(0/0) or an infinity. `Divide` and `AveragesWithoutUsers` model that outcome.

## Model

| member | source | states |
|---|---|---|
| JavaText.IntToString | RecommendationEvaluation/src/recommendationevaluation/RecommendationEvaluation.java:439-441 | the rendering of an int in a string concatenation is a non-empty run of digits and '-', starting with '-' exactly for negative values |
| JavaText.IntToStringInjective | RecommendationEvaluation/src/recommendationevaluation/RecommendationEvaluation.java:439-441 | two ints with the same rendering are equal (parsing the rendering gives the int back) |
| JavaNumbers.ToInt32 | DataGeneration/src/datageneration/CreateTagsDocuments.java:103-106 | the `(int)` cast of a long lies in the int range and agrees with the long modulo 2^32 |
| JavaNumbers.RoundToIntInRange | DataGeneration/src/datageneration/CreateTagsDocuments.java:103-106 | an integral double in the int range prints unchanged through `(int) Math.round` |
| JavaNumbers.RoundToIntSaturates | DataGeneration/src/datageneration/CreateTagsDocuments.java:106 | every integral double at or above 2^63 prints as -1 through `(int) Math.round` |
| JavaNumbers.DivideByZeroIsNotFinite | RecommendationEvaluation/src/recommendationevaluation/RecommendationEvaluation.java:493-498 | dividing by a zero user count never gives a finite value; it gives NaN exactly when the total is 0 |
| JavaNumbers.Divide | RecommendationEvaluation/src/recommendationevaluation/RecommendationEvaluation.java:493-498 | a double quotient is finite exactly when the divisor is non-zero, and NaN exactly for 0/0 |
| JavaNumbers.DivideInverts | RecommendationEvaluation/src/recommendationevaluation/RecommendationEvaluation.java:493-498 | a finite quotient times the divisor gives back the dividend |
| JavaNumbers.Times | RecommendationEvaluation/src/recommendationevaluation/RecommendationEvaluation.java:496 | multiplying by a positive factor keeps a value finite, NaN or infinite |
| JavaNumbers.TimesInverts | RecommendationEvaluation/src/recommendationevaluation/RecommendationEvaluation.java:496 | a finite product divided by the factor gives back the operand |
| JavaNumbers.RoundToInt | DataGeneration/src/datageneration/CreateTagsDocuments.java:103-106 | `(int) Math.round` of an integral double lies in the int range, and agrees with a value in the long range modulo 2^32 |
| ReportPaths.MetricsDirectoryInjective | RecommendationEvaluation/src/recommendationevaluation/RecommendationEvaluation.java:406-408 | distinct (neighbourhood size, recommendation count) pairs get distinct report directories under one algorithm |
| ReportPaths.UserMetricsPathInjective | RecommendationEvaluation/src/recommendationevaluation/RecommendationEvaluation.java:439-441 | equal per-user report paths under one algorithm have the same size, count and user id |
| ReportPaths.UserMetricsPathIsNotAveragePath | RecommendationEvaluation/src/recommendationevaluation/RecommendationEvaluation.java:476-478 | no per-user report path equals an aggregate `average.dat` path of the same algorithm |
| EvaluationMetrics.AccumulateTotals | RecommendationEvaluation/src/recommendationevaluation/RecommendationEvaluation.java:208-215 | after the user loop the data-piece total is the sum of all counts, the recall total the sum of all recalls, and the precision total the sum of the defined precisions (NaN adds 0) |
| EvaluationMetrics.AddUser | RecommendationEvaluation/src/recommendationevaluation/RecommendationEvaluation.java:208-223 | one user step adds the recall and data count to their totals, adds the precision only when defined, lowers the minimum to the count when smaller, and counts the user as not ideal exactly when it has fewer than 20 data pieces |
| EvaluationMetrics.Accumulate | RecommendationEvaluation/src/recommendationevaluation/RecommendationEvaluation.java:188-225 | after the user loop the minimum is at most Integer.MAX_VALUE and the not-ideal counter lies between 0 and the number of users |
| EvaluationMetrics.Averages | RecommendationEvaluation/src/recommendationevaluation/RecommendationEvaluation.java:493-498 | the report repeats the size, count and minimum; each average is finite exactly when the queried user count is not zero |
| EvaluationMetrics.AveragesTimesCount | RecommendationEvaluation/src/recommendationevaluation/RecommendationEvaluation.java:493-498 | with a non-zero user count, each average times the count gives back its total, and the not-ideal percentage gives back 100 times the not-ideal counter |
| EvaluationMetrics.AccumulateMinimum | RecommendationEvaluation/src/recommendationevaluation/RecommendationEvaluation.java:217-219 | the running minimum is at most Integer.MAX_VALUE and every user's count, and is MAX_VALUE or some user's count |
| EvaluationMetrics.AccumulateNotIdeal | RecommendationEvaluation/src/recommendationevaluation/RecommendationEvaluation.java:221-223 | the not-ideal counter equals the number of users with fewer than 20 data pieces |
| EvaluationMetrics.AccumulateScoreBounds | RecommendationEvaluation/src/recommendationevaluation/RecommendationEvaluation.java:208-214 | with scores in [0, 1], the precision total lies in [0, number of defined precisions] and the recall total in [0, number of users] |
| EvaluationMetrics.AverageDataPiecesOfSnapshot | RecommendationEvaluation/src/recommendationevaluation/RecommendationEvaluation.java:493-494 | when the user count equals the users visited, the average data pieces is the finite mean of the counts and is at least the reported minimum |
| EvaluationMetrics.NotIdealPercentOfSnapshot | RecommendationEvaluation/src/recommendationevaluation/RecommendationEvaluation.java:495-496 | when the user count equals the users visited, the below-threshold percentage is finite and in [0, 100] |
| EvaluationMetrics.AverageScoresOfSnapshot | RecommendationEvaluation/src/recommendationevaluation/RecommendationEvaluation.java:497-498 | when the user count equals the users visited and scores lie in [0, 1], the average precision is finite, at least 0 and at most the share of defined precisions; the average recall is finite and in [0, 1] |
| EvaluationMetrics.AveragesWithoutUsers | RecommendationEvaluation/src/recommendationevaluation/RecommendationEvaluation.java:487-498 | with a user count of 0 no average is finite, and after an empty user loop all four are NaN |
| RecommendationEvaluation.GetMovieRecommendations | RecommendationEvaluation/src/recommendationevaluation/RecommendationEvaluation.java:326-344 | the result has the length of the recommender's list for an empty exclusion set, and holds its ids in the same order |
| RecommendationEvaluation.BlockLength | RecommendationEvaluation/src/recommendationevaluation/RecommendationEvaluation.java:96-97 | one algorithm's part of the sweep has #sizes · #counts triples |
| RecommendationEvaluation.BlockAt | RecommendationEvaluation/src/recommendationevaluation/RecommendationEvaluation.java:96-97 | within one algorithm, the triple (size j, count k) comes at position j · #counts + k |
| RecommendationEvaluation.GridLength | RecommendationEvaluation/src/recommendationevaluation/RecommendationEvaluation.java:95-97 | the sweep has #algorithms · #sizes · #counts triples |
| RecommendationEvaluation.GridAt | RecommendationEvaluation/src/recommendationevaluation/RecommendationEvaluation.java:95-99 | the triple (algorithms[i], sizes[j], counts[k]) is evaluated at position i · #sizes · #counts + j · #counts + k: algorithm outermost, count innermost |
| RecommendationEvaluation.CounterExceedsTotal | RecommendationEvaluation/src/recommendationevaluation/RecommendationEvaluation.java:91-101 | the final counter exceeds the announced total #sizes · #counts exactly when more than one algorithm is chosen |
| RecommendationEvaluation.EngineBuiltAtMostOnce | RecommendationEvaluation/src/recommendationevaluation/RecommendationEvaluation.java:255-270 | after the cache check the engine file exists; an existing file is left as it is; a second check with the same (algorithm, size) changes nothing; every other file keeps its content, and a missing engine is built for its own (algorithm, size) |
| RecommendationEvaluation.SweepFilesHoldEngine | RecommendationEvaluation/src/recommendationevaluation/RecommendationEvaluation.java:91-108 | after any prefix of the sweep, the engine file of every configuration evaluated so far exists |
| RecommendationEvaluation.EngineBuiltOncePerSweep | RecommendationEvaluation/src/recommendationevaluation/RecommendationEvaluation.java:251-270 | when an earlier configuration of the sweep shares the later one's (algorithm, size), the engine file is present before the later one and its cache check changes nothing |
| RecommendationEvaluation.EngineBuiltOncePerGrid | RecommendationEvaluation/src/recommendationevaluation/RecommendationEvaluation.java:95-99 | in the grid, the configurations of one (algorithm, size) with counts k1 < k2 come in that order, and the later one finds the engine already built |
| RecommendationEvaluation.DirectoriesCreated | RecommendationEvaluation/src/recommendationevaluation/RecommendationEvaluation.java:398-422 | after the three guarded `mkdir` calls (root, algorithm, configuration), `metrics`, `metrics/<alg>` and the configuration's directory exist, every earlier entry is unchanged, and every new entry is a directory |
| RecommendationEvaluation.MetricsFilesKeepFile | RecommendationEvaluation/src/recommendationevaluation/RecommendationEvaluation.java:163-230 | evaluating a configuration removes no file and leaves its engine file and its report directory in place |
| RecommendationEvaluation.AverageReportOfConfig | RecommendationEvaluation/src/recommendationevaluation/RecommendationEvaluation.java:471-498 | the configuration's `average.dat` is labelled with its size and count, repeats the accumulated minimum, and all four averages (data pieces, not-ideal percentage, precision, recall) are finite exactly when the queried user count is not zero |
| RecommendationEvaluation.WithUserReportsAt | RecommendationEvaluation/src/recommendationevaluation/RecommendationEvaluation.java:439-446 | with distinct user ids, each user's report path holds that user's own result after the user loop |
| RecommendationEvaluation.UserReportsHoldRawResults | RecommendationEvaluation/src/recommendationevaluation/RecommendationEvaluation.java:203-210 | after a configuration, each user's report holds the raw precision as scored, NaN included, because the report is written before the zero substitution |
| RecommendationEvaluation.Evaluation.constructor | RecommendationEvaluation/src/recommendationevaluation/RecommendationEvaluation.java:58-65 | the metric fields start in the state `resetVariables` gives them, over the given files |
| RecommendationEvaluation.Evaluation.ResetVariables | RecommendationEvaluation/src/recommendationevaluation/RecommendationEvaluation.java:235-241 | both score totals, the data-piece total and the not-ideal counter become 0 and the minimum becomes Integer.MAX_VALUE; files are unchanged |
| RecommendationEvaluation.Evaluation.CreateEngineIfNecessary | RecommendationEvaluation/src/recommendationevaluation/RecommendationEvaluation.java:251-271 | an engine is built exactly when no file exists at its name; afterwards the file exists and nothing else changes |
| RecommendationEvaluation.Evaluation.InitialiseDirectories | RecommendationEvaluation/src/recommendationevaluation/RecommendationEvaluation.java:398-422 | `metrics`, `metrics/<alg>` and `metrics/<alg>/neighbours<n>top<k>` exist afterwards; existing entries are kept |
| RecommendationEvaluation.Evaluation.OutputUserMetrics | RecommendationEvaluation/src/recommendationevaluation/RecommendationEvaluation.java:434-462 | the file `metrics/<alg>/neighbours<n>top<k>/<userId>.dat` holds exactly the values given, and nothing else changes |
| RecommendationEvaluation.Evaluation.OutputAverageMetrics | RecommendationEvaluation/src/recommendationevaluation/RecommendationEvaluation.java:471-501 | `.../average.dat` holds the current totals divided by the queried user count, not by the users visited; the metric fields are unchanged |
| RecommendationEvaluation.Evaluation.EvaluateUser | RecommendationEvaluation/src/recommendationevaluation/RecommendationEvaluation.java:189-223 | one pass of the user loop: the user's report gets the raw scores and the metric fields advance by one user step, with NaN precision as 0 |
| RecommendationEvaluation.Evaluation.EvaluateUsers | RecommendationEvaluation/src/recommendationevaluation/RecommendationEvaluation.java:188-225 | from the reset state, the loop leaves the metric fields equal to the fold of every user's result in order, and writes one report per user |
| RecommendationEvaluation.Evaluation.GenerateMetrics | RecommendationEvaluation/src/recommendationevaluation/RecommendationEvaluation.java:163-230 | after one configuration the metric fields are the fold of all users from the reset state, and the files gain the engine, the directories, the user reports and the aggregate report |
| RecommendationEvaluation.Evaluation.RunSweep | RecommendationEvaluation/src/recommendationevaluation/RecommendationEvaluation.java:91-108 | one evaluation per triple in nested order; the counter ends at #algorithms · total, where total is #sizes · #counts; progress lines are numbered 1, 2, … against that total; the files and metric fields are those of evaluating the grid in order |
| RecommendationEvaluation.Evaluation.SweepSizes | RecommendationEvaluation/src/recommendationevaluation/RecommendationEvaluation.java:96-107 | the middle loop evaluates one algorithm's block of triples in order and keeps counter, progress, files and metric fields in step with it |
| RecommendationEvaluation.Evaluation.SweepCounts | RecommendationEvaluation/src/recommendationevaluation/RecommendationEvaluation.java:97-106 | the inner loop evaluates one (algorithm, size) line of triples in order and keeps counter, progress, files and metric fields in step with it |
| RecommendationEvaluation.Evaluation.SweepOne | RecommendationEvaluation/src/recommendationevaluation/RecommendationEvaluation.java:99-105 | one configuration is evaluated, the counter goes up by one and its progress line is appended |
| ReadInDat.ToUpper | DataGeneration/src/datageneration/ReadInDat.java:133 | lower-case ASCII letters map to their upper-case letter; every other character is unchanged |
| ReadInDat.RemoveWhitespace | DataGeneration/src/datageneration/ReadInDat.java:136 | the result holds no `\s` character and is no longer than the input |
| ReadInDat.RemoveNonWord | DataGeneration/src/datageneration/ReadInDat.java:139 | the result holds only `\w` characters and is no longer than the input |
| ReadInDat.NormaliseStrings | DataGeneration/src/datageneration/ReadInDat.java:130-142 | requires a first character (`substring(0, 1)`); the output holds only word characters, no whitespace, and is no longer than the input |
| ReadInDat.WhitespacePassRedundant | DataGeneration/src/datageneration/ReadInDat.java:136-139 | stripping whitespace before stripping non-word characters changes nothing |
| ReadInDat.NormaliseKeepsRest | DataGeneration/src/datageneration/ReadInDat.java:133-141 | only the first character is case-changed: the output is the word characters of the upper-cased first character followed by those of the rest, in order |
| ReadInDat.NormaliseCapitalises | DataGeneration/src/datageneration/ReadInDat.java:133 | an input starting with a lower-case letter yields an output starting with that letter upper-cased |
| ReadInDat.NormaliseFixpoint | DataGeneration/src/datageneration/ReadInDat.java:130-142 | a non-empty string of word characters not starting with a lower-case letter is left unchanged |
| ReadInDat.NormaliseIdempotent | DataGeneration/src/datageneration/ReadInDat.java:130-142 | normalising twice equals normalising once when the first output character is not lower case |
| ReadInDat.JoinSplitOn | DataGeneration/src/datageneration/ReadInDat.java:70 | splitting at every tab gives tab-free pieces whose join is the line |
| ReadInDat.JavaSplit | DataGeneration/src/datageneration/ReadInDat.java:70 | `split("\t")` gives tab-free pieces, and when the line holds a tab the last piece is non-empty |
| ReadInDat.ParseLine | DataGeneration/src/datageneration/ReadInDat.java:70-73 | a parsed row has the table's number of fields, each made of word characters only |
| ReadInDat.SplitOnJoin | DataGeneration/src/datageneration/ReadInDat.java:70 | splitting a join of tab-free pieces gives the pieces back |
| ReadInDat.DropTrailingEmptyIsPrefix | DataGeneration/src/datageneration/ReadInDat.java:70 | `split` drops exactly the run of empty pieces at the end |
| ReadInDat.JavaSplitOfJoin | DataGeneration/src/datageneration/ReadInDat.java:70 | a tab-separated line whose last field is non-empty splits back into its fields |
| ReadInDat.Arity | DataGeneration/src/datageneration/ReadInDat.java:71-112 | rows have 3 fields for movie tags and 2 for tags and for movie genres |
| ReadInDat.TableFor | DataGeneration/src/datageneration/ReadInDat.java:57-115 | exactly the three file names select a table, each its own |
| ReadInDat.NormaliseFieldsSpec | DataGeneration/src/datageneration/ReadInDat.java:71-73 | the row is the normalised first n pieces exactly when there are at least n pieces and none of the first n is empty; otherwise it fails with a string index fault if a present needed piece is empty, or an array index fault if pieces are missing |
| ReadInDat.ParseWellFormedLine | DataGeneration/src/datageneration/ReadInDat.java:69-75 | a line of tab-free fields, at least as many as the table needs and the needed ones non-empty, parses to the needed fields normalised; the fields after them may be empty |
| ReadInDat.Rows | DataGeneration/src/datageneration/ReadInDat.java:69-75 | all lines give rows exactly when each line parses; then there is one row per line, in line order |
| ReadInDat.FirstBadLineSpec | DataGeneration/src/datageneration/ReadInDat.java:69-75 | every line before the index parses, and the line at the index, if any, does not |
| ReadInDat.RowsFault | DataGeneration/src/datageneration/ReadInDat.java:69-75 | a failed read raises the fault of the first line that does not parse |
| ReadInDat.ReadDataOutcomes | DataGeneration/src/datageneration/ReadInDat.java:41-123 | an unopenable file inserts nothing and raises nothing; an unknown name raises a null-pointer fault; for a known name whose lines parse, the header is skipped and each further line gives one row, in order; an empty file with a known name executes an empty batch |
| ReadInDat.ReadDataResult | DataGeneration/src/datageneration/ReadInDat.java:41-123 | nothing is read exactly when the file cannot be opened; an opened file with an unknown name raises a null-pointer fault; an insertion goes to the file's table, with one row per body line, each of the table's arity |
| ReadInDat.Import | DataGeneration/src/datageneration/ReadInDat.java:27-35 | importing never removes a table or a row: each table's rows before are a prefix of its rows after |
| ReadInDat.ImportOfUnreadableFiles | DataGeneration/src/datageneration/ReadInDat.java:27-35 | files that cannot be opened change no table and stop nothing |
| ReadInDat.TagDatabase.constructor | DataGeneration/src/datageneration/ReadInDat.java:21 | the tables start empty |
| ReadInDat.TagDatabase.ReadData | DataGeneration/src/datageneration/ReadInDat.java:41-123 | the outcome is the file's specified outcome, and the rows are appended to the table only when the batch is executed |
| ReadInDat.TagDatabase.ImportTagData | DataGeneration/src/datageneration/ReadInDat.java:27-35 | the files are read in order; the first escaping fault ends the import, and the tables are as the earlier files left them |
| CreateTagsDocuments.RecordUserEffect | DataGeneration/src/datageneration/CreateTagsDocuments.java:85-89 | the total grows by the count; the maximum becomes max(old maximum, count); the minimum changes exactly when count < minimum and count ≤ maximum, and then becomes the count |
| CreateTagsDocuments.RecordUser | DataGeneration/src/datageneration/CreateTagsDocuments.java:85-89 | one user step adds the count to the total; the maximum becomes at least the old maximum and the count, and is one of them; the minimum never grows, and when it changes it becomes the count, which then is at most the old maximum |
| CreateTagsDocuments.Report | DataGeneration/src/datageneration/CreateTagsDocuments.java:103-107 | the mean is the finite quotient total / users for a non-zero user count, and NaN exactly for 0/0; the user count, total, maximum and minimum print unchanged when in the int range; a minimum still above 2^63 prints as -1 |
| CreateTagsDocuments.NewMaximumKeepsMinimum | DataGeneration/src/datageneration/CreateTagsDocuments.java:85-89 | a user who sets a new maximum leaves the minimum as it was, even when its count is below it |
| CreateTagsDocuments.FirstUserLeavesMinimum | DataGeneration/src/datageneration/CreateTagsDocuments.java:19-22 | from the initial statistics, a first user with c ≥ 1 tags gives total c, maximum c and minimum still Double.MAX_VALUE |
| CreateTagsDocuments.RecordUsersMonotone | DataGeneration/src/datageneration/CreateTagsDocuments.java:85-89 | over any users the maximum never decreases and the minimum never increases |
| CreateTagsDocuments.MaxOf | DataGeneration/src/datageneration/CreateTagsDocuments.java:85-86 | the reference maximum: at least every count, and 0 or one of the counts |
| CreateTagsDocuments.RecordUsersTotals | DataGeneration/src/datageneration/CreateTagsDocuments.java:77-86 | from the initial statistics the total is the sum of all counts and the maximum the largest count |
| CreateTagsDocuments.RecordUsersMinimumIsACount | DataGeneration/src/datageneration/CreateTagsDocuments.java:87-88 | from the initial statistics the minimum is Double.MAX_VALUE or one of the counts |
| CreateTagsDocuments.RecordUsersMinimumBound | DataGeneration/src/datageneration/CreateTagsDocuments.java:85-89 | the minimum is at most every count that did not exceed the maximum of the counts before it |
| CreateTagsDocuments.IncreasingCountsHideMinimum | DataGeneration/src/datageneration/CreateTagsDocuments.java:85-106 | when each user has more tags than all before it, the minimum stays Double.MAX_VALUE and the metrics file prints it as -1 |
| CreateTagsDocuments.MeanWithinRange | DataGeneration/src/datageneration/CreateTagsDocuments.java:107 | when the user count is the number of users recorded, the mean is finite and in [0, maximum]; with no users it is NaN |
| CreateTagsDocuments.UserTagsPathsDistinct | DataGeneration/src/datageneration/CreateTagsDocuments.java:63 | distinct users get distinct `userTags/<id>.dat` files, none of them `userTags/metrics.dat` |
| CreateTagsDocuments.TagsDocuments.constructor | DataGeneration/src/datageneration/CreateTagsDocuments.java:19-22 | no users or tags, maximum 0, minimum Double.MAX_VALUE |
| CreateTagsDocuments.TagsDocuments.CreateUserDocument | DataGeneration/src/datageneration/CreateTagsDocuments.java:54-90 | the user's file lists the tag rows in order; the statistics advance by one user step with tagCounter = number of rows; the user count is unchanged |
| CreateTagsDocuments.TagsDocuments.CreateMetricsDocument | DataGeneration/src/datageneration/CreateTagsDocuments.java:93-109 | the user count becomes the queried count; `userTags/metrics.dat` holds the rounded statistics and the mean total / user count; the statistics are unchanged |

## Left out

- The JDBC connection and every SQL query are not modelled. This covers `getUsers`,
  `getComparisonDataSet`, `getUserDataCount`, both `countUsers`, `getUserArtifacts`,
  `collectUserIds` and the prepared INSERT statements. Their results are inputs (`Store`, a
  user's tag rows, the batch as an appended row sequence). `con.close()` and `con.shutDown()`
  are not modelled.
- The text a `PrintWriter` writes is not modelled. A report is a document value holding the
  values written, and creating a directory or file is adding its path.
- Reading the algorithms, sizes and counts from standard input (`getUserInput`) is not
  modelled. The sweep takes the three parsed lists as parameters.
- LensKit engine training, loading and recommending are not modelled. Neither are
  `MovieRecommenderEngine`, `getEngineName`, `getAlgorithmName` and `PrecisionRecall`, whose
  source is not part of this model. They are function values in `Collaborators`, and an
  existing engine file is trusted as the program trusts it.
- Log output and console messages are not modelled. The progress line keeps only its counter,
  its total and its triple.
- Floating point is not modelled. Score totals and averages are reals, NaN is `None` or `NaN`,
  and a division by zero is NaN or an infinity. IEEE rounding is not modelled.
- EvaluationMetrics.AccumulateTotals: totals are unbounded integers and reals. Java `Integer`
  wrap-around of `totalDataPieces` beyond 2^31 - 1 is not modelled.
- CreateTagsDocuments.RecordUsersTotals: the statistics are exact integers. Above 2^53 the
  program's doubles would lose precision; that is not modelled.
- ReadInDat.NormaliseStrings: upper-casing covers the ASCII letters only. Java's `toUpperCase`
  also maps other letters, so a first character such as 'ß' would become "SS", which survives
  the `\W` pass. The model keeps such a character as it is. `toUpperCase()` also uses the
  default locale: under a Turkish locale 'i' becomes 'İ', which `\W` then strips, so "item"
  becomes "tem" where the model gives "Item".
- ReadInDat.ToUpper: maps the ASCII letters a-z only and ignores the default locale, so it does
  not model the Turkish 'i' to 'İ' mapping or any non-ASCII upper-casing.
- ReadInDat.TagDatabase.ReadData: splits every body line at its tabs before the loop instead of
  while reading. The same rows and the same first fault result.
- I/O failures are not modelled, apart from a file that cannot be opened. Mid-file read errors
  and SQL errors, which the same handler catches, are not modelled either.
- RecommendationEvaluation.Evaluation.CreateEngineIfNecessary: assumes that
  `writeToFile(algorithm)` (`RecommendationEvaluation.java`, line 265) writes the engine exactly
  at `getEngineName(algorithm, neighbourhoodSize)`, the name checked at line 255 and loaded at
  line 295. `MovieRecommenderEngine` is not part of this model.
- RecommendationEvaluation.Evaluation.constructor: in Java the `Integer` statics
  `totalDataPieces`, `minDataPieces` and `totalNotIdealUsers` (lines 58-60) start as null. The
  model starts them in the reset state. The difference cannot be observed, because
  `generateMetrics` calls `resetVariables` (line 171) before any use.
- The `CreateDocuments` driver, `Documents.java` and `AbstractSimilarity.java` are not part of
  this model. They are JDBC and file plumbing or foreign numeric code. The model starts at
  `createUserDocument` and `createMetricsDocument`.
