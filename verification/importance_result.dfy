/**
 * The record a sequential selection builds up: the method name, the variable
 * names, and one entry per round holding that round's converted score
 * dictionary and the variable chosen in it. Entries are only ever appended.
 */
module Importance {

  /**
   * A round's score dictionary in iteration order: each key maps to an entry
   * whose first component is what the round minimises.
   */
  type ScoreDict<V, A> = seq<(V, (real, A))>

  datatype Round<V, A> = Round(scores: ScoreDict<V, A>, winner: V)

  datatype ImportanceResult<V, A> = ImportanceResult(methodName: string, names: seq<V>, rounds: seq<Round<V, A>>)

  /** `ImportanceResult(method, variable_names)`: a record with no rounds yet. */
  function NewResult<V, A>(methodName: string, names: seq<V>): (r: ImportanceResult<V, A>)
    ensures r.methodName == methodName && r.names == names && Ranking(r) == []
  {
    ImportanceResult(methodName, names, [])
  }

  /** The chosen variables, in the order in which they were chosen. */
  function Ranking<V, A>(r: ImportanceResult<V, A>): (vs: seq<V>)
    ensures |vs| == |r.rounds|
    ensures forall q :: 0 <= q < |vs| ==> vs[q] == r.rounds[q].winner
    decreases |r.rounds|
  {
    if |r.rounds| == 0 then []
    else Ranking(r.(rounds := r.rounds[..|r.rounds| - 1])) + [r.rounds[|r.rounds| - 1].winner]
  }

  /**
   * `add_new_results(scores, next_important_variable=winner)`: one round is
   * appended after the existing ones, and the method and names are kept.
   */
  function AddNewResults<V, A>(r: ImportanceResult<V, A>, scores: ScoreDict<V, A>, winner: V): (s: ImportanceResult<V, A>)
    ensures s.methodName == r.methodName && s.names == r.names
    ensures |s.rounds| == |r.rounds| + 1
    ensures s.rounds[..|r.rounds|] == r.rounds
    ensures s.rounds[|r.rounds|].scores == scores && s.rounds[|r.rounds|].winner == winner
  {
    r.(rounds := r.rounds + [Round(scores, winner)])
  }

  /** Adding a round extends the ranking by exactly its winner. */
  lemma RankingAppends<V, A>(r: ImportanceResult<V, A>, scores: ScoreDict<V, A>, winner: V)
    ensures Ranking(AddNewResults(r, scores, winner)) == Ranking(r) + [winner]
  {
    var s := AddNewResults(r, scores, winner);
    assert forall q :: 0 <= q < |r.rounds| ==> s.rounds[q] == r.rounds[q];
  }
}
