# PermutationImportance core in Dafny

This project models two pieces of the PermutationImportance library.

**Contingency tables and skill scores** (`src/metrics.py`).
- `_get_contingency_table` turns truths and predictions into a k-by-k count table.
- The two sides may both be probabilistic (2-D), only the predictions may be 2-D, or both may be plain labels.
- The checks run in a fixed order, and each error is modelled as a `TableError` value.
- The Peirce, Heidke and Gerrity skill scores are computed from that table over exact rationals (`real`).
- Each score is defined only where its denominators are nonzero. The `PeirceDefined`, `HeidkeDefined` and `GerrityDefined` predicates name those tables.

**The sequential-selection round loop** (`src/sequential_selection.py`).
- In every round the selection strategy receives the indices committed so far and proposes candidates.
- Each candidate is scored on its column subset, and the scores are converted into a dictionary.
- The key with the smallest first component wins, and the earliest key wins a tie.
- The winner's first position among the variable names is committed.
- The scoring function, the selection strategy, the list-to-dictionary conversion and the column subsetting are parameters of the model, bundled in `SequentialSelection.Setup`. The scoring-strategy check (`verifyStrategy`) and the selection strategy's name (`selectionName`) are separate parameters of `SequentialSelection.SequentialSelection`. Nothing is assumed about any of them.

Layout:
- `results.dfy`: `Option` and `Result`.
- `sums.dfy`: sums of `nat` and `real` sequences.
- `real_facts.dfy`, `binary_algebra.dfy`: rational identities, kept away from the table definitions.
- `contingency.dfy`: the table builder.
- `table_totals.dfy`: what the table counts.
- `skill_scores.dfy`: the three scores and their wrappers.
- `score_facts.dfy`: properties of the scores.
- `gerrity_facts.dfy`: the Gerrity score for any number of classes, through the boundary shares of its scoring matrix.
- `importance_result.dfy`: the append-only result record.
- `sequential_selection.dfy`: the round loop.

Behaviour of the code worth knowing, which the model follows:
- **Grand total.** The table's grand total equals the number of samples when both sides are 2-D, when the class list is derived from the data, and when a supplied class list has no repeats and holds every label (`TableTotals.GivenClassesTotal`). The docstrings ask for "an ordered set" of classes (src/metrics.py:19), but nothing checks it:
  - a supplied list that misses a label drops those samples;
  - a supplied list that repeats a class counts its samples more than once (`TableTotals.RepeatedClassCountsTwice`).
- **Committed variables.** The round loop does not itself keep a committed variable out of later rounds: it commits whatever the strategy and the conversion offer. The committed indices are distinct only when no round offers an already committed name (`SequentialSelection.CommittedIndicesDistinct`).
- **Winner choice.** The loop takes `min` over the first component of the converted entries (src/sequential_selection.py:66-67). The scoring strategy acts only through the conversion.
- **numpy errors.** Besides its three named exceptions, the table builder can fail inside numpy:
  - `argmax` over a class axis of width zero (`EmptyClassAxis`);
  - `np.take` with a column beyond the class list (`ClassIndexOutOfRange`).

## Model

Some functions only compute and carry no contract of their own. Their rows name the lemmas that state their properties:
- `SkillScores.Peirce`: SharedNumerator, PeircePerfect, BinaryPeirce.
- `SkillScores.Heidke`: SharedNumerator, HeidkePerfect.
- `SkillScores.Gerrity`: GerrityPerfect, GerrityConstantForecast, GerrityBinaryIsPeirce.
- `SkillScores.Weight`: WeightByBoundaries, WeightSymmetric, BinaryWeights.
- `Contingency.CountPair`: CountPairCounts.
- `SequentialSelection.RoundScores`: StepKeepsCommitted and RoundsKeepCommitted.

| member | source | states |
|---|---|---|
| Contingency.ContingencyTable | src/metrics.py:53-91 | Each of the five errors fires exactly when its condition holds. The conditions follow the check order: length mismatch first, then the unmatching 2-D shapes, then ambiguity (1-D truths, 2-D predictions, no classes), then the numpy argmax and take errors. A success is square, with size equal to the truths' class width or to the given class list. Its cells are stated by ProbabilisticTable, LabelTable and MixedTable. |
| Contingency.Argmax | src/metrics.py:70-71 | The index returned holds the largest entry of the row, and every earlier entry is strictly smaller. This is numpy's first maximal index. |
| Contingency.ArgmaxRows | src/metrics.py:70-71 | One column per sample: the argmax of that sample's row, below the class width. |
| Contingency.TakeClasses | src/metrics.py:80 | `np.take` fails exactly when some row's argmax lies beyond the class list. Otherwise sample i gets the class named by its argmax. |
| Contingency.Bump | src/metrics.py:73 | `table[pred, true] += 1` raises exactly that cell by one and leaves every other cell unchanged. |
| Contingency.Tally | src/metrics.py:72-73 | The tally loop keeps the table k-by-k. Its cells are stated by TallyCells and its total by TallyTotal. |
| Contingency.CountTable | src/metrics.py:86-90 | The label table is square, with one row and one column per listed class. Its cells are stated by CountTableCells. |
| Contingency.DerivedClasses | src/metrics.py:84-85 | The derived class list is strictly increasing and holds exactly the labels that occur among the truths or the predictions. |
| Contingency.Zeros | src/metrics.py:69 | A k-by-k table whose cells are all zero. |
| Contingency.Insert | src/metrics.py:85 | Inserting into a strictly increasing list keeps it strictly increasing and adds exactly the new element. |
| Contingency.UniqueSorted | src/metrics.py:85 | `np.unique` gives a strictly increasing list with the same elements as its input. |
| TableTotals.TallyCells | src/metrics.py:69-73 | After the tally loop, each cell is its starting value plus the number of samples whose (prediction, truth) columns are that cell. |
| TableTotals.TallyTotal | src/metrics.py:72-73 | Each pass of the tally loop adds exactly one to the grand total. |
| TableTotals.ProbabilisticTable | src/metrics.py:64-73 | When both sides are 2-D: the table is k-by-k for the truths' width, cell [i][j] counts the samples with prediction argmax i and truth argmax j, and the grand total equals the number of samples. |
| TableTotals.CountTableTotal | src/metrics.py:86-90 | The grand total of the label table is the sum, over samples, of (occurrences of the prediction in the class list) times (occurrences of the truth). |
| TableTotals.PairWeightBounds | src/metrics.py:86-90 | With a class list free of repeats, that weighted count is at most the number of samples. It equals the number of samples when every label is listed. |
| TableTotals.DistinctMultiplicity | src/metrics.py:87-90 | In a class list free of repeats, a label occurs once if it is listed and never otherwise. |
| TableTotals.CountPairCounts | src/metrics.py:89-90 | The list comprehension's `count(True)` is the number of sample positions whose prediction is `a` and whose truth is `b`. |
| TableTotals.CountTableCells | src/metrics.py:86-90 | Cell [i][j] of the label table is the number of samples predicted as class i and observed as class j. |
| TableTotals.LabelTable | src/metrics.py:82-90 | With both sides labels the build succeeds. The class list is the given one, or otherwise the derived one, and cell [i][j] is the number of samples predicted as class i and observed as class j. |
| TableTotals.MixedTable | src/metrics.py:75-90 | With label truths and 2-D predictions, a built table had a class list and a nonzero width. Each prediction is the class at its row's argmax column, and cell [i][j] is the number of samples so predicted as class i and observed as class j. |
| TableTotals.DerivedClassesCover | src/metrics.py:84-85 | The derived class list has no repeats and contains every truth and every prediction. |
| TableTotals.DerivedClassesTotal | src/metrics.py:84-90 | Without a class list, the grand total equals the number of samples. |
| TableTotals.GivenClassesTotal | src/metrics.py:80-90 | With a class list free of repeats, the grand total is at most the number of samples. It is exactly the number of samples when every label is listed. |
| TableTotals.RepeatedClassCountsTwice | src/metrics.py:86-90 | With the class list [0, 0], a single (0, 0) sample is counted in all four cells, so the total is 4. |
| SkillScores.Odds | src/metrics.py:130-131 | On a table where the Gerrity score is defined, every odds ratio `a[m]` is nonzero, so `1.0 / a` is finite. |
| SkillScores.OddsVector | src/metrics.py:129-131 | `a` has one entry per class boundary (k - 1 entries): entry m is the odds ratio `Odds(t, m)`, and all are nonzero. |
| SkillScores.GerrityScore | src/metrics.py:14-24 | The table builder's errors pass through unchanged; a built table gets its Gerrity score. |
| SkillScores.PeirceSkillScore | src/metrics.py:27-37 | The table builder's errors pass through unchanged; a built table gets its Peirce score. |
| SkillScores.HeidkeSkillScore | src/metrics.py:40-50 | The table builder's errors pass through unchanged; a built table gets its Heidke score. |
| ScoreFacts.SharedNumerator | src/metrics.py:94-117 | Peirce times its denominator and Heidke times its denominator are both the same excess of accuracy over chance agreement. So each score is zero exactly when accuracy equals chance agreement. |
| ScoreFacts.HeidkePerfect | src/metrics.py:108-117 | Where the score is defined, Heidke is 1 exactly when the trace equals n, that is, when every sample lies on the diagonal. |
| ScoreFacts.DiagonalMarginals | src/metrics.py:101-102 | In a diagonal-only table, the row sums and column sums both equal the diagonal. |
| ScoreFacts.PeircePerfect | src/metrics.py:94-117 | A diagonal-only table whose Peirce score is defined has trace n and Peirce score 1. Its Heidke score is then defined and also 1. |
| ScoreFacts.WeightSymmetric | src/metrics.py:134-141 | The Gerrity scoring matrix is symmetric: `s[i, j] == s[j, i]` for all i, j. |
| ScoreFacts.BinaryMarginals | src/metrics.py:101-104 | The row sums, column sums, total and trace of a two-class table, written cell by cell. |
| ScoreFacts.BinaryOdds | src/metrics.py:127-131 | With two classes, both observed, the Gerrity score is defined and its one odds ratio is o1/o0. |
| ScoreFacts.BinaryWeights | src/metrics.py:132-141 | With two classes the scoring matrix is [[a, -1], [-1, 1/a]]. |
| ScoreFacts.BinaryGerrity | src/metrics.py:142 | The two-class Gerrity score, written as a sum over the four cells. |
| ScoreFacts.BinaryPeirce | src/metrics.py:94-105 | With both observed classes present, the two-class Peirce score is defined and equals (ad - bc) / ((a + c)(b + d)). |
| ScoreFacts.GerrityBinaryIsPeirce | src/metrics.py:120-142 | With two classes, both observed, the Gerrity and Peirce scores are both defined and equal. |
| GerrityFacts.WeightByBoundaries | src/metrics.py:132-141 | For any number of classes, `s[i, j]` is 1/(k - 1) times the sum over the k - 1 class boundaries of a[m] when i and j both lie at or below boundary m, 1/a[m] when both lie above it, and -1 when it separates them. This holds on, above and below the diagonal. |
| GerrityFacts.OddsHypotheses | src/metrics.py:127-131 | Every odds ratio a[m] is (1 - P)/P for the cumulative observed frequency P up to class m, with P neither 0 nor 1. |
| ScoreFacts.ColumnSumsTotal | src/metrics.py:101-103 | In every square table the column sums `no` add up to the grand total n, as the row sums do by definition. |
| GerrityFacts.FrequenciesSumToOne | src/metrics.py:128-129 | In every square table with n > 0, the observed frequencies `p_o` sum to one. |
| GerrityFacts.PerfectFrequencies | src/metrics.py:142 | For a diagonal-only table, `table / n` holds the observed frequencies on its diagonal and zeros elsewhere. |
| GerrityFacts.ConstantFrequencies | src/metrics.py:142 | For a table with samples in row r only, `table / n` holds the observed frequencies in row r and zeros elsewhere. |
| GerrityFacts.GerrityPerfect | src/metrics.py:120-142 | For any number of classes, a table with every sample on the diagonal has Gerrity score 1. |
| GerrityFacts.GerrityConstantForecast | src/metrics.py:120-142 | For any number of classes, a forecast that always names the same class r has Gerrity score 0. |
| ScoreFacts.WorkedExample | src/metrics.py:84-105 | Truths [0, 0, 1, 1], predictions [0, 1, 1, 1] and classes [0, 1] give [[1, 0], [1, 2]], whose Peirce score is 1/2. |
| Importance.NewResult | src/sequential_selection.py:57 | The fresh record keeps the method name and the variable names, and its ranking is empty. |
| Importance.Ranking | src/sequential_selection.py:69-70 | Entry q of the ranking is the winner recorded in round q. |
| Importance.AddNewResults | src/sequential_selection.py:69-70 | Exactly one round, holding the given dictionary and winner, is appended after the existing rounds. The earlier rounds, the method name and the names are unchanged. |
| Importance.RankingAppends | src/sequential_selection.py:69-70 | Adding a round extends the ranking by exactly its winner. |
| SequentialSelection.SingleThreadIteration | src/sequential_selection.py:76-100 | One (candidate, score) pair per candidate, in the strategy's order. Score k is the scoring function applied to candidate k's column subset of both inputs, with the outputs unchanged. |
| SequentialSelection.MinimumFrom | src/sequential_selection.py:66-67 | Python's `min` scan, which replaces the kept key only on a strictly smaller value, ends at the first position holding the smallest first component. |
| SequentialSelection.BestPosition | src/sequential_selection.py:66-67 | `min` fails exactly on an empty dictionary. Otherwise it returns the first minimal position. |
| SequentialSelection.FirstMinimumUnique | src/sequential_selection.py:66-67 | At most one position is the first minimum, so ties are broken deterministically. |
| SequentialSelection.FirstIndexOf | src/sequential_selection.py:68 | `flatnonzero(...)[0]` fails exactly when the winner is not a name. Otherwise it is the first position holding the winner. |
| SequentialSelection.Step | src/sequential_selection.py:61-71 | A round fails with EmptyRound exactly when its dictionary is empty, and with UnknownVariable exactly when its winner is not a name. It succeeds in every other case. A success appends exactly one index, names[index] is the recorded winner, and the record gains exactly that round. |
| SequentialSelection.StepKeepsCommitted | src/sequential_selection.py:61-71 | A successful round keeps every earlier round faithful, and the round it adds is faithful: its dictionary is the converted scores of the candidates the strategy proposed for exactly the earlier commitments (src/sequential_selection.py:62-65), its winner is the first minimum, and its index is the winner's first position among the names. |
| SequentialSelection.Rounds | src/sequential_selection.py:59-71 | After `count` rounds, exactly `count` indices and `count` rounds have been appended after the earlier ones. The method name and the names are unchanged. |
| SequentialSelection.RoundsLast | src/sequential_selection.py:59-71 | A run of k + 1 rounds is the run of k rounds followed by one more round, unless the run of k rounds has already failed; a failure is then kept unchanged. |
| SequentialSelection.RoundsLastSucceeds | src/sequential_selection.py:59-71 | A run of k + 1 rounds succeeds exactly when the run of k rounds succeeds and the round it reaches next has a non-empty dictionary whose winner is a name. |
| SequentialSelection.RoundsSucceed | src/sequential_selection.py:59-71 | A run of `count` rounds succeeds exactly when every round it reaches (after k < count successful rounds) has a non-empty dictionary whose winner is a name. |
| SequentialSelection.RoundsFailure | src/sequential_selection.py:59-71 | A failed run failed at a round it reached: there is a k < count such that the first k rounds succeed and the round after them returns exactly the run's error. |
| SequentialSelection.RoundsKeepCommitted | src/sequential_selection.py:59-71 | Starting from a faithful record, every round of a successful run is faithful: round q saw exactly the first q committed indices. |
| SequentialSelection.RoundCount | src/sequential_selection.py:52-53 | The number of rounds defaults to the number of names. A negative count runs no round. |
| SequentialSelection.SequentialSelection | src/sequential_selection.py:16-73 | The run fails with UnrecognizedScoringStrategy exactly when the strategy check rejects the strategy. When the check passes, the run succeeds exactly when every round it reaches has a non-empty dictionary whose winner is a name. A failed run failed at a round it reached, with that round's error. A successful run records the given method name, or the strategy's name when none is given. It keeps the names, makes exactly `RoundCount` rounds and commits exactly as many indices, and every round is faithful. |
| SequentialSelection.SequentialForwardSelection | src/sequential_selection.py:103-123 | The recorded method name is always "Sequential Forward Selection". The result is that of sequential selection with this method name, whatever the selection strategy's own name. |
| SequentialSelection.RankingIsCommittedNames | src/sequential_selection.py:66-71 | In a faithful run, the q-th ranked variable is the name at the q-th committed index. |
| SequentialSelection.CommittedIndicesDistinct | src/sequential_selection.py:59-71 | If no round's dictionary offers the name at an already committed index, the committed indices are pairwise distinct. |

## Left out

- Floating point: the table is float32 in the code and the scores are float64. The model counts in `nat` and scores in `real`, so rounding, NaN and infinity are not modelled. The same holds for the round loop: the first components of the converted score dictionary, which `min` compares, are `real` in the model. With a NaN first component Python's `min` keeps or replaces a key depending on where the NaN stands, because every comparison with NaN is false; `FirstMinimum` and `MinimumFrom` compare totally ordered reals and cannot express that.
- SkillScores.Peirce: requires `PeirceDefined`. With n = 0 the code raises ZeroDivisionError at `correct / n`, a division of two Python floats (src/metrics.py:101-105). With a zero denominator `1 - (no * no).sum() / n ** 2` numpy gives infinity or NaN. The model gives no value in either case.
- SkillScores.Heidke: requires `HeidkeDefined`. n = 0 raises ZeroDivisionError as for Peirce (src/metrics.py:113-117). A zero denominator gives infinity or NaN, and the model gives no value.
- SkillScores.Gerrity: requires `GerrityDefined`, which asks for at least two classes, n > 0, and no cumulative frequency of 0 or 1. The code's behaviour outside that domain is not modelled:
  - k = 1 raises ZeroDivisionError at `1.0 / (k - 1.0)` (src/metrics.py:135);
  - k = 0 returns 0.0, because the loop is empty and `np.sum` of an empty array is 0 (src/metrics.py:133-142);
  - otherwise numpy gives infinity or NaN.
- SkillScores.GerrityScore: requires that a successfully built table has a defined Gerrity score, for the same reason.
- SkillScores.PeirceSkillScore: requires that a successfully built table has a defined Peirce score, for the same reason.
- SkillScores.HeidkeSkillScore: requires that a successfully built table has a defined Heidke score, for the same reason.
- Contingency.ContingencyTable: arrays of more than two dimensions, and ragged 2-D arrays, are not modelled. Both sides must be rectangular.
- Contingency.ContingencyTable: labels are integers. The code accepts any comparable label type.
- TableTotals.GivenClassesTotal: "total at most the number of samples" is proved only for class lists without repeats. With repeats the bound fails, as RepeatedClassCountsTwice shows.
- `verify_data` and `determine_variable_names` are not part of this model. `Setup.names` stands for the already determined variable names, and the data are taken as already verified.
- `get_data_subset`, `sfs_strategy`, `verify_scoring_strategy` and `convert_result_list_to_dict` are not part of this model. They are the parameters `subset`, `selection`, `verifyStrategy` and `convert`.
- `ImportanceResult` (src/result.py) is not part of this model beyond appending rounds. The record is a list of (dictionary, winner) rounds.
- The converted dictionary is an association list in iteration order. The model does not enforce that its keys are distinct.
- `scoring_fn` is an uninterpreted total function. Exceptions it raises and its cost are not modelled.
- `selection_strategy.__name__` is the parameter `selectionName`. SequentialForwardSelection passes "sfs_strategy", which its contract shows to be irrelevant.
- `variable_names == best_var` is taken as an element-wise comparison, as on a numpy array.
- A non-integer `nimportant_vars` (a TypeError in `range`) is not modelled.
- SequentialSelection.CommittedIndicesDistinct: the hypothesis is stated on the converted dictionary's keys, not on the strategy's candidates. The conversion from candidates to names is a parameter, so a condition on candidates alone could not be carried through it.
- `PermutationImportance/__init__.py` only re-exports names and is not modelled.
