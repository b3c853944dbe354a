TestResult.DisplayName,TestResult.Outcome,TestResult.Duration,TestResult.ResourceCount,RandomSeed
Sums.SumRealTwoWeights (correctness),Failed,00:00:00.5274367,2011137,0
Sums.SumRowsColumns (correctness),Passed,00:00:00.1987897,122488,0
Sums.Sum (well-formedness),Passed,00:00:00.1601467,12161,0
Sums.SumReal (well-formedness),Passed,00:00:00.1567988,10489,0
TableTotals.IndicatorSum (correctness),Passed,00:00:00.0866861,43120,0
SkillScores.SumOdds (well-formedness),Passed,00:00:00.0731167,11206,0
Contingency.RowSums (well-formedness),Passed,00:00:00.0644878,40080,0
Sums.SumPointwise (well-formedness),Passed,00:00:00.0624707,12998,0
Sums.SumRealSplit (correctness),Passed,00:00:00.0553291,35332,0
Sums.SumRealScale (correctness),Passed,00:00:00.0526352,82662,0
Sums.SumScale (correctness),Passed,00:00:00.0517049,102551,0
Contingency.ColumnSums (well-formedness),Passed,00:00:00.0471935,47188,0
SkillScores.SumInverseOdds (well-formedness),Passed,00:00:00.0463965,14689,0
Sums.SumPointwise (correctness),Passed,00:00:00.0443016,33590,0
Sums.SumRealPointwise (correctness),Passed,00:00:00.0402963,25368,0
Sums.SumRowsColumns (well-formedness),Passed,00:00:00.0398715,31363,0
Sums.SumIncrement (correctness),Passed,00:00:00.0386661,71329,0
Sums.ColumnReal (well-formedness),Passed,00:00:00.0373858,29283,0
Sums.SumSingle (correctness),Passed,00:00:00.0339650,37253,0
Sums.SumRealZero (correctness),Passed,00:00:00.0286310,14206,0
Sums.SumRealOnly (correctness),Passed,00:00:00.0278250,28950,0
Sums.ScaledPart (correctness),Passed,00:00:00.0262222,13866,0
Sums.SumPair (correctness),Passed,00:00:00.0255729,20809,0
Sums.SumRealTwoWeights (well-formedness),Passed,00:00:00.0254183,13260,0
Sums.SumSingle (well-formedness),Passed,00:00:00.0247400,11264,0
Sums.SumRealScale (well-formedness),Passed,00:00:00.0222886,10282,0
Sums.ScaledPart (well-formedness),Passed,00:00:00.0216491,10282,0
Sums.SumRealConst (correctness),Passed,00:00:00.0212171,28670,0
Sums.SumPair (well-formedness),Passed,00:00:00.0204312,11247,0
Sums.SumRealPair (correctness),Passed,00:00:00.0190087,18582,0
Sums.SumRealConst (well-formedness),Passed,00:00:00.0181642,9645,0
BinaryAlgebra.ScaledSum (correctness),Passed,00:00:00.0180201,6226,0
Sums.SumZero (correctness),Passed,00:00:00.0174445,15526,0
Sums.SumZero (well-formedness),Passed,00:00:00.0169465,9831,0
Sums.SumRealOnly (well-formedness),Passed,00:00:00.0167084,11234,0
BinaryAlgebra.ScaledSum (well-formedness),Passed,00:00:00.0166139,3718,0
Sums.SumScale (well-formedness),Passed,00:00:00.0162388,10801,0
Sums.SumRealSplit (well-formedness),Passed,00:00:00.0158571,10274,0
Sums.SumRealZero (well-formedness),Passed,00:00:00.0158367,9773,0
Sums.SumIncrement (well-formedness),Passed,00:00:00.0152034,11805,0
Sums.SumRealSingle (correctness),Passed,00:00:00.0150884,10199,0
Sums.SumRealPointwise (well-formedness),Passed,00:00:00.0148503,11632,0
Sums.SumRealPair (well-formedness),Passed,00:00:00.0137399,9801,0
