TestResult.DisplayName,TestResult.Outcome,TestResult.Duration,TestResult.ResourceCount,RandomSeed
Sums.SumRealTwoWeights (correctness),Failed,00:00:00.6047679,2010853,0
Sums.SumRowsColumns (correctness),Passed,00:00:00.1858713,122488,0
Sums.SumReal (well-formedness),Passed,00:00:00.1642217,10489,0
Sums.Sum (well-formedness),Passed,00:00:00.1608087,12161,0
Sums.SumRealScale (correctness),Passed,00:00:00.0987752,82662,0
Sums.ColumnReal (well-formedness),Passed,00:00:00.0796772,29283,0
Sums.SumPointwise (well-formedness),Passed,00:00:00.0668271,12998,0
Sums.SumScale (correctness),Passed,00:00:00.0622875,102551,0
Sums.SumRealSingle (correctness),Passed,00:00:00.0622655,10199,0
Sums.SumRealOnly (correctness),Passed,00:00:00.0559219,28950,0
Sums.SumIncrement (correctness),Passed,00:00:00.0537606,71329,0
Sums.SumRealZero (well-formedness),Passed,00:00:00.0532946,9773,0
Sums.ScaledPart (well-formedness),Passed,00:00:00.0528440,10282,0
Sums.SumPair (correctness),Passed,00:00:00.0509117,20809,0
Sums.SumRealScale (well-formedness),Passed,00:00:00.0506309,10282,0
Sums.SumPointwise (correctness),Passed,00:00:00.0503111,33590,0
Sums.SumRealZero (correctness),Passed,00:00:00.0502540,14206,0
Contingency.RowSums (well-formedness),Passed,00:00:00.0486334,40080,0
Sums.ScaledPart (correctness),Passed,00:00:00.0481820,13866,0
Sums.SumRealSplit (correctness),Passed,00:00:00.0479794,35332,0
Sums.SumRealPointwise (correctness),Passed,00:00:00.0446569,25368,0
Contingency.ColumnSums (well-formedness),Passed,00:00:00.0439947,47188,0
TableTotals.IndicatorSum (correctness),Passed,00:00:00.0417995,43120,0
Sums.SumRowsColumns (well-formedness),Passed,00:00:00.0416788,31363,0
Sums.SumRealOnly (well-formedness),Passed,00:00:00.0412669,11234,0
Sums.SumRealSplit (well-formedness),Passed,00:00:00.0388306,10274,0
Sums.SumPair (well-formedness),Passed,00:00:00.0355578,11247,0
Sums.SumSingle (well-formedness),Passed,00:00:00.0352433,11264,0
Sums.SumRealPointwise (well-formedness),Passed,00:00:00.0352158,11632,0
Sums.SumRealConst (correctness),Passed,00:00:00.0348535,28670,0
Sums.SumRealConst (well-formedness),Passed,00:00:00.0330031,9645,0
Sums.SumRealPair (correctness),Passed,00:00:00.0305706,18582,0
Sums.SumZero (correctness),Passed,00:00:00.0299646,15526,0
Sums.SumSingle (correctness),Passed,00:00:00.0291022,37253,0
Sums.SumZero (well-formedness),Passed,00:00:00.0280221,9831,0
Sums.SumRealPair (well-formedness),Passed,00:00:00.0267329,9801,0
Sums.SumScale (well-formedness),Passed,00:00:00.0264088,10801,0
Sums.SumRealTwoWeights (well-formedness),Passed,00:00:00.0251467,13260,0
Sums.SumIncrement (well-formedness),Passed,00:00:00.0242172,11805,0
SkillScores.SumOdds (well-formedness),Passed,00:00:00.0206476,11206,0
SkillScores.SumInverseOdds (well-formedness),Passed,00:00:00.0189952,14689,0
BinaryAlgebra.ScaledSum (correctness),Passed,00:00:00.0118715,6226,0
BinaryAlgebra.ScaledSum (well-formedness),Passed,00:00:00.0114894,3718,0
