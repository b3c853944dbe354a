TestResult.DisplayName,TestResult.Outcome,TestResult.Duration,TestResult.ResourceCount,RandomSeed
Sums.SumRealTwoWeights (correctness),Failed,00:00:00.8446800,2010853,0
Sums.Sum (well-formedness),Passed,00:00:00.3043704,12161,0
Sums.SumReal (well-formedness),Passed,00:00:00.3003248,10489,0
Contingency.RowSums (well-formedness),Passed,00:00:00.1733886,40080,0
Contingency.ColumnSums (well-formedness),Passed,00:00:00.1335345,47188,0
Sums.SumRowsColumns (correctness),Passed,00:00:00.1035928,122488,0
Sums.SumScale (correctness),Passed,00:00:00.0834435,102551,0
Sums.SumIncrement (correctness),Passed,00:00:00.0591554,71329,0
Sums.SumRealScale (correctness),Passed,00:00:00.0570178,82662,0
Sums.SumPointwise (correctness),Passed,00:00:00.0469526,33590,0
TableTotals.IndicatorSum (correctness),Passed,00:00:00.0457093,43120,0
Sums.SumSingle (correctness),Passed,00:00:00.0453214,37253,0
Sums.SumRowsColumns (well-formedness),Passed,00:00:00.0433794,31363,0
Sums.SumPointwise (well-formedness),Passed,00:00:00.0411099,12998,0
Sums.SumScale (well-formedness),Passed,00:00:00.0388901,10801,0
Sums.ColumnReal (well-formedness),Passed,00:00:00.0379003,29283,0
Sums.SumZero (correctness),Passed,00:00:00.0365027,15526,0
Sums.SumPair (correctness),Passed,00:00:00.0349822,20809,0
Sums.SumRealOnly (correctness),Passed,00:00:00.0345526,28950,0
Sums.SumPair (well-formedness),Passed,00:00:00.0314280,11247,0
Sums.SumRealOnly (well-formedness),Passed,00:00:00.0311245,11234,0
Sums.SumRealSplit (correctness),Passed,00:00:00.0305850,35332,0
Sums.SumZero (well-formedness),Passed,00:00:00.0292228,9831,0
Sums.SumRealPair (correctness),Passed,00:00:00.0284471,18582,0
Sums.SumRealZero (correctness),Passed,00:00:00.0280085,14206,0
SkillScores.SumInverseOdds (well-formedness),Passed,00:00:00.0275865,14689,0
Sums.SumRealPair (well-formedness),Passed,00:00:00.0260066,9801,0
Sums.SumIncrement (well-formedness),Passed,00:00:00.0249877,11805,0
Sums.SumSingle (well-formedness),Passed,00:00:00.0238040,11264,0
Sums.SumRealScale (well-formedness),Passed,00:00:00.0232254,10282,0
Sums.SumRealConst (correctness),Passed,00:00:00.0226639,28670,0
Sums.SumRealSplit (well-formedness),Passed,00:00:00.0216422,10274,0
Sums.SumRealZero (well-formedness),Passed,00:00:00.0215573,9773,0
SkillScores.SumOdds (well-formedness),Passed,00:00:00.0214735,11206,0
Sums.SumRealPointwise (well-formedness),Passed,00:00:00.0210852,11632,0
Sums.SumRealSingle (correctness),Passed,00:00:00.0207098,10199,0
Sums.SumRealTwoWeights (well-formedness),Passed,00:00:00.0195617,13260,0
Sums.SumRealPointwise (correctness),Passed,00:00:00.0193669,25368,0
BinaryAlgebra.ScaledSum (well-formedness),Passed,00:00:00.0180694,3718,0
Sums.SumRealConst (well-formedness),Passed,00:00:00.0178030,9645,0
BinaryAlgebra.ScaledSum (correctness),Passed,00:00:00.0175651,6226,0
