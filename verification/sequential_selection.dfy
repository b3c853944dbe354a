/**
 * The round loop of sequential selection. Each round asks the selection
 * strategy for candidates given the indices committed so far, scores every
 * candidate with the scoring function on its column subset, converts the
 * scores into a dictionary, picks the key with the smallest first component
 * (the earliest key on ties) and commits that variable's index.
 *
 * The scoring function, the selection strategy, the strategy check, the
 * list-to-dictionary conversion and the column subsetting are parameters:
 * nothing is assumed about them beyond their types.
 */
module SequentialSelection {
  import opened Results
  import opened Importance

  /** A `(inputs, outputs)` pair. */
  datatype Data<I, O> = Data(inputs: I, outputs: O)

  datatype SelectionError =
    | UnrecognizedScoringStrategy  // raised by the scoring-strategy check
    | EmptyRound                   // `min` over a dictionary with no keys
    | UnknownVariable              // the winner is not among the variable names

  /**
   * Everything a round depends on besides the indices committed so far.
   * `selection` is `selection_strategy(num_vars, important_vars)`, yielding
   * (candidate, columns) pairs; `subset` is `get_data_subset`; `convert` is
   * `convert_result_list_to_dict`.
   */
  datatype Setup<!I, !O, !Sc, !St, !C, !K, !V, A> = Setup(
    training: Data<I, O>,
    scoring: Data<I, O>,
    scoringFn: (Data<I, O>, Data<I, O>) -> Sc,
    strategy: St,
    selection: (nat, seq<nat>) -> seq<(C, K)>,
    subset: (I, K) -> I,
    convert: (seq<(C, Sc)>, seq<V>, St) -> ScoreDict<V, A>,
    names: seq<V>)

  /** The score of one candidate: the scoring function on the column subset of both inputs, outputs unchanged. */
  function CandidateScore<I, O, Sc, K>(training: Data<I, O>, scoring: Data<I, O>, scoringFn: (Data<I, O>, Data<I, O>) -> Sc,
                                       subset: (I, K) -> I, columns: K): Sc
  {
    scoringFn(Data(subset(training.inputs, columns), training.outputs), Data(subset(scoring.inputs, columns), scoring.outputs))
  }

  /** `_singlethread_iteration`: one (candidate, score) pair per candidate, in the strategy's order. */
  function SingleThreadIteration<I, O, Sc, C, K>(training: Data<I, O>, scoring: Data<I, O>,
                                                     scoringFn: (Data<I, O>, Data<I, O>) -> Sc,
                                                     subset: (I, K) -> I, candidates: seq<(C, K)>): (r: seq<(C, Sc)>)
    ensures |r| == |candidates|
    ensures forall k :: 0 <= k < |r| ==>
      r[k] == (candidates[k].0, CandidateScore(training, scoring, scoringFn, subset, candidates[k].1))
  {
    if |candidates| == 0 then []
    else
      [(candidates[0].0, CandidateScore(training, scoring, scoringFn, subset, candidates[0].1))]
      + SingleThreadIteration(training, scoring, scoringFn, subset, candidates[1..])
  }

  /** Position `p` holds the smallest first component of `d`, and no earlier position ties with it. */
  predicate FirstMinimum<V, A>(d: ScoreDict<V, A>, p: nat)
  {
    && p < |d|
    && (forall k :: 0 <= k < |d| ==> d[p].1.0 <= d[k].1.0)
    && (forall k :: 0 <= k < p ==> d[k].1.0 > d[p].1.0)
  }

  /**
   * Python's `min` over the keys from position `i` on, with `best` the
   * position kept so far: a later key replaces it only when strictly smaller.
   */
  function MinimumFrom<V, A>(d: ScoreDict<V, A>, i: nat, best: nat): (p: nat)
    requires best < i <= |d| && FirstMinimum(d[..i], best)
    ensures FirstMinimum(d, p)
    decreases |d| - i
  {
    if i == |d| then
      assert d[..i] == d;
      best
    else
      var next := if d[i].1.0 < d[best].1.0 then i else best;
      assert forall k :: 0 <= k < i ==> d[..i + 1][k] == d[..i][k];
      MinimumFrom(d, i + 1, next)
  }

  /** `min(d.keys(), key=lambda key: d[key][0])`, as a position; `None` when `d` is empty. */
  function BestPosition<V, A>(d: ScoreDict<V, A>): (r: Option<nat>)
    ensures r.None? <==> |d| == 0
    ensures r.Some? ==> FirstMinimum(d, r.value)
  {
    if |d| == 0 then None else Some(MinimumFrom(d, 1, 0))
  }

  /** At most one position is the first minimum. */
  lemma FirstMinimumUnique<V, A>(d: ScoreDict<V, A>, p: nat, q: nat)
    requires FirstMinimum(d, p) && FirstMinimum(d, q)
    ensures p == q
  {
    var x, y := d[p].1.0, d[q].1.0;
    assert x <= y && y <= x;
  }

  /** `np.flatnonzero(names == v)[0]`: the first position holding `v`, `None` when there is none. */
  function FirstIndexOf<V(==)>(names: seq<V>, v: V): (r: Option<nat>)
    ensures r.None? <==> v !in names
    ensures r.Some? ==> r.value < |names| && names[r.value] == v
    ensures r.Some? ==> forall k :: 0 <= k < r.value ==> names[k] != v
  {
    if |names| == 0 then None
    else if names[0] == v then Some(0)
    else match FirstIndexOf(names[1..], v)
      case None => None
      case Some(i) => Some(i + 1)
  }

  /** The converted score dictionary of the round that follows the commitments `important`. */
  function RoundScores<I, O, Sc, St, C, K, V, A>(s: Setup<I, O, Sc, St, C, K, V, A>, important: seq<nat>): ScoreDict<V, A>
  {
    var candidates := s.selection(|s.names|, important);
    s.convert(SingleThreadIteration(s.training, s.scoring, s.scoringFn, s.subset, candidates), s.names, s.strategy)
  }

  /** The record so far and the indices committed so far (`important_vars`). */
  datatype Progress<V, A> = Progress(result: ImportanceResult<V, A>, important: seq<nat>)

  /**
   * Every committed round q is faithful: it recorded the dictionary built from
   * the first q commitments, its winner is that dictionary's first minimum, and
   * the index committed is the first position of the winner among the names.
   */
  ghost predicate Committed<I, O, Sc, St, C, K, V, A>(s: Setup<I, O, Sc, St, C, K, V, A>, p: Progress<V, A>)
  {
    && |p.result.rounds| == |p.important|
    && forall q :: 0 <= q < |p.important| ==> RoundFaithful(s, p, q)
  }

  /** Round q of `p` is faithful to the first q commitments (see `Committed`). */
  ghost predicate RoundFaithful<I, O, Sc, St, C, K, V, A>(s: Setup<I, O, Sc, St, C, K, V, A>, p: Progress<V, A>, q: nat)
  {
    q < |p.important| && q < |p.result.rounds| &&
    var d := RoundScores(s, p.important[..q]);
    var b := BestPosition(d);
    && p.result.rounds[q].scores == d
    && b.Some? && p.result.rounds[q].winner == d[b.value].0
    && FirstIndexOf(s.names, p.result.rounds[q].winner) == Some(p.important[q])
  }

  /** The round after the commitments `important` has a non-empty dictionary whose first minimal key is a variable name. */
  predicate RoundSucceeds<I, O, Sc, St, C, K, V(==), A>(s: Setup<I, O, Sc, St, C, K, V, A>, important: seq<nat>)
  {
    var d := RoundScores(s, important);
    |d| > 0 && d[BestPosition(d).value].0 in s.names
  }

  /**
   * One pass of the loop body: build and convert the round's scores, take the
   * first minimal key as the winner, record the round and commit the winner's
   * first position among the names.
   */
  function Step<I, O, Sc, St, C, K, V(==), A>(s: Setup<I, O, Sc, St, C, K, V, A>, p: Progress<V, A>): (r: Result<Progress<V, A>, SelectionError>)
    ensures var d := RoundScores(s, p.important);
      && (r == Failure(EmptyRound) <==> |d| == 0)
      && (r == Failure(UnknownVariable) <==> |d| > 0 && d[BestPosition(d).value].0 !in s.names)
    ensures r.Success? <==> RoundSucceeds(s, p.important)
    ensures r.Success? ==>
      && |r.value.important| == |p.important| + 1
      && r.value.important[..|p.important|] == p.important
      && r.value.important[|p.important|] < |s.names|
      && r.value.result == AddNewResults(p.result, RoundScores(s, p.important), s.names[r.value.important[|p.important|]])
  {
    var d := RoundScores(s, p.important);
    match BestPosition(d)
    case None => Failure(EmptyRound)
    case Some(w) =>
      var winner := d[w].0;
      match FirstIndexOf(s.names, winner)
      case None => Failure(UnknownVariable)
      case Some(i) =>
        var next := Progress(AddNewResults(p.result, d, winner), p.important + [i]);
        assert next.important[..|p.important|] == p.important;
        Success(next)
  }

  /** A successful round keeps every earlier round faithful and adds a faithful one. */
  lemma StepKeepsCommitted<I, O, Sc, St, C, K, V, A>(s: Setup<I, O, Sc, St, C, K, V, A>, p: Progress<V, A>)
    requires Committed(s, p) && Step(s, p).Success?
    ensures Committed(s, Step(s, p).value)
  {
    var next := Step(s, p).value;
    forall q | 0 <= q < |next.important|
      ensures RoundFaithful(s, next, q)
    {
      if q < |p.important| {
        assert RoundFaithful(s, p, q);
        assert next.important[..q] == p.important[..q];
        assert next.result.rounds[q] == p.result.rounds[q];
      } else {
        assert next.important[..q] == p.important;
      }
    }
  }

  /** `count` further rounds from `p`; the first failing round ends the run with its error. */
  function Rounds<I, O, Sc, St, C, K, V(==), A>(s: Setup<I, O, Sc, St, C, K, V, A>, p: Progress<V, A>, count: nat): (r: Result<Progress<V, A>, SelectionError>)
    ensures r.Failure? ==> r.error == EmptyRound || r.error == UnknownVariable
    ensures r.Success? ==>
      && |r.value.important| == |p.important| + count
      && r.value.important[..|p.important|] == p.important
      && r.value.result.methodName == p.result.methodName
      && r.value.result.names == p.result.names
      && |r.value.result.rounds| == |p.result.rounds| + count
      && r.value.result.rounds[..|p.result.rounds|] == p.result.rounds
    decreases count
  {
    if count == 0 then Success(p)
    else match Step(s, p)
      case Failure(e) => Failure(e)
      case Success(next) =>
        var r := Rounds(s, next, count - 1);
        if r.Success? then
          assert r.value.important[..|p.important|] == next.important[..|next.important|][..|p.important|];
          assert r.value.result.rounds[..|p.result.rounds|] == next.result.rounds[..|p.result.rounds|];
          r
        else r
  }

  /** Every round of a successful run from a faithful start is faithful. */
  lemma {:induction false} RoundsKeepCommitted<I, O, Sc, St, C, K, V, A>(s: Setup<I, O, Sc, St, C, K, V, A>, p: Progress<V, A>, count: nat)
    requires Committed(s, p) && Rounds(s, p, count).Success?
    ensures Committed(s, Rounds(s, p, count).value)
    decreases count
  {
    if count > 0 {
      StepKeepsCommitted(s, p);
      RoundsKeepCommitted(s, Step(s, p).value, count - 1);
    }
  }

  /** A run of `k + 1` rounds is the run of `k` rounds followed by one more step, unless it has already failed. */
  lemma {:induction false} RoundsLast<I, O, Sc, St, C, K, V, A>(s: Setup<I, O, Sc, St, C, K, V, A>, p: Progress<V, A>, k: nat)
    ensures Rounds(s, p, k + 1) == if Rounds(s, p, k).Failure? then Rounds(s, p, k) else Step(s, Rounds(s, p, k).value)
    decreases k
  {
    if k > 0 && Step(s, p).Success? {
      RoundsLast(s, Step(s, p).value, k - 1);
    }
  }

  /** Every round the run of `count` rounds from `p` reaches (every earlier round having succeeded) succeeds. */
  ghost predicate ReachedRoundsSucceed<I, O, Sc, St, C, K, V, A>(s: Setup<I, O, Sc, St, C, K, V, A>, p: Progress<V, A>, count: nat)
  {
    forall k: nat :: k < count && Rounds(s, p, k).Success? ==> RoundSucceeds(s, Rounds(s, p, k).value.important)
  }

  /** A run of `k + 1` rounds succeeds exactly when the run of `k` rounds does and its next round succeeds. */
  lemma RoundsLastSucceeds<I, O, Sc, St, C, K, V, A>(s: Setup<I, O, Sc, St, C, K, V, A>, p: Progress<V, A>, k: nat)
    ensures Rounds(s, p, k + 1).Success? <==>
      Rounds(s, p, k).Success? && RoundSucceeds(s, Rounds(s, p, k).value.important)
  {
    RoundsLast(s, p, k);
  }

  /** The rounds a run of `c + 1` rounds reaches are those of `c` rounds and round `c`, if reached. */
  lemma ReachedOneMore<I, O, Sc, St, C, K, V, A>(s: Setup<I, O, Sc, St, C, K, V, A>, p: Progress<V, A>, c: nat)
    ensures ReachedRoundsSucceed(s, p, c + 1) <==>
      ReachedRoundsSucceed(s, p, c) && (Rounds(s, p, c).Success? ==> RoundSucceeds(s, Rounds(s, p, c).value.important))
  {
  }

  /** A run of `count` rounds succeeds exactly when every round it reaches succeeds. */
  lemma {:induction false} RoundsSucceed<I, O, Sc, St, C, K, V, A>(s: Setup<I, O, Sc, St, C, K, V, A>, p: Progress<V, A>, count: nat)
    ensures Rounds(s, p, count).Success? <==> ReachedRoundsSucceed(s, p, count)
    decreases count
  {
    if count > 0 {
      RoundsSucceed(s, p, count - 1);
      RoundsLastSucceeds(s, p, count - 1);
      ReachedOneMore(s, p, count - 1);
    }
  }

  /** A failed run failed at a round it reached: after `k` successful rounds, round `k` failed with the run's error. */
  lemma {:induction false} RoundsFailure<I, O, Sc, St, C, K, V, A>(s: Setup<I, O, Sc, St, C, K, V, A>, p: Progress<V, A>, count: nat)
    requires Rounds(s, p, count).Failure?
    ensures exists k: nat :: k < count && Rounds(s, p, k).Success? && Step(s, Rounds(s, p, k).value) == Rounds(s, p, count)
    decreases count
  {
    var c := count - 1;
    RoundsLast(s, p, c);
    if Rounds(s, p, c).Failure? {
      RoundsFailure(s, p, c);
    } else {
      assert Step(s, Rounds(s, p, c).value) == Rounds(s, p, count);
    }
  }

  /** `range(nimportant_vars)` with `nimportant_vars` defaulting to the number of names; a negative count runs no round. */
  function RoundCount(nimportant: Option<int>, numNames: nat): (n: nat)
    ensures nimportant.None? ==> n == numNames
    ensures nimportant.Some? && nimportant.value >= 0 ==> n == nimportant.value
    ensures nimportant.Some? && nimportant.value < 0 ==> n == 0
  {
    match nimportant
    case None => numNames
    case Some(k) => if k < 0 then 0 else k
  }

  /**
   * `sequential_selection`. The scoring strategy in `s` is first checked by
   * `verifyStrategy` (`None` is the raised error); `selectionName` stands for
   * `selection_strategy.__name__`, the default method name. The result is the
   * record together with the committed indices `important_vars`.
   */
  function SequentialSelection<I, O, Sc, St, C, K, V(==), A>(s: Setup<I, O, Sc, St, C, K, V, A>, verifyStrategy: St -> Option<St>,
                                                           selectionName: string, nimportant: Option<int>,
                                                           methodName: Option<string>): (r: Result<Progress<V, A>, SelectionError>)
    ensures r == Failure(UnrecognizedScoringStrategy) <==> verifyStrategy(s.strategy).None?
    ensures r.Success? ==>
      && r.value.result.methodName == (if methodName.None? then selectionName else methodName.value)
      && r.value.result.names == s.names
      && |r.value.important| == RoundCount(nimportant, |s.names|)
      && |r.value.result.rounds| == RoundCount(nimportant, |s.names|)
    ensures r.Success? ==> Committed(s.(strategy := verifyStrategy(s.strategy).value), r.value)
    ensures verifyStrategy(s.strategy).Some? ==>
      var verified := s.(strategy := verifyStrategy(s.strategy).value);
      var start := Progress(NewResult(if methodName.None? then selectionName else methodName.value, s.names), []);
      var count := RoundCount(nimportant, |s.names|);
      && (r.Success? <==> ReachedRoundsSucceed(verified, start, count))
      && (r.Failure? ==> exists k: nat :: k < count && Rounds(verified, start, k).Success? && Step(verified, Rounds(verified, start, k).value) == r)
  {
    match verifyStrategy(s.strategy)
    case None => Failure(UnrecognizedScoringStrategy)
    case Some(st) =>
      var verified := s.(strategy := st);
      var methodUsed := if methodName.None? then selectionName else methodName.value;
      var start := Progress(NewResult(methodUsed, s.names), []);
      var r := Rounds(verified, start, RoundCount(nimportant, |s.names|));
      RoundsSucceed(verified, start, RoundCount(nimportant, |s.names|));
      if r.Success? then
        RoundsKeepCommitted(verified, start, RoundCount(nimportant, |s.names|));
        r
      else
        RoundsFailure(verified, start, RoundCount(nimportant, |s.names|));
        r
  }

  /**
   * `sequential_forward_selection`: sequential selection with the forward
   * strategy (the selection function in `s`) and the fixed method name; the
   * strategy's own name plays no part.
   */
  function SequentialForwardSelection<I, O, Sc, St, C, K, V(==), A>(s: Setup<I, O, Sc, St, C, K, V, A>, verifyStrategy: St -> Option<St>,
                                                                  nimportant: Option<int>): (r: Result<Progress<V, A>, SelectionError>)
    ensures r.Success? ==> r.value.result.methodName == "Sequential Forward Selection"
    ensures forall name: string :: r == SequentialSelection(s, verifyStrategy, name, nimportant, Some("Sequential Forward Selection"))
  {
    SequentialSelection(s, verifyStrategy, "sfs_strategy", nimportant, Some("Sequential Forward Selection"))
  }

  /** In a faithful run each recorded winner is the name at the index committed in its round. */
  lemma RankingIsCommittedNames<I, O, Sc, St, C, K, V, A>(s: Setup<I, O, Sc, St, C, K, V, A>, p: Progress<V, A>)
    requires Committed(s, p)
    ensures |Ranking(p.result)| == |p.important|
    ensures forall q :: 0 <= q < |p.important| ==> p.important[q] < |s.names| && Ranking(p.result)[q] == s.names[p.important[q]]
  {
    forall q | 0 <= q < |p.important|
      ensures p.important[q] < |s.names| && Ranking(p.result)[q] == s.names[p.important[q]]
    {
      assert RoundFaithful(s, p, q);
    }
  }

  /** No key of any round's dictionary names a variable at an already committed index. */
  ghost predicate KeysAvoidCommitted<I, O, Sc, St, C, K, V, A>(s: Setup<I, O, Sc, St, C, K, V, A>)
  {
    forall important: seq<nat>, k, j :: 0 <= k < |RoundScores(s, important)| && 0 <= j < |important| && important[j] < |s.names| ==>
      RoundScores(s, important)[k].0 != s.names[important[j]]
  }

  /** When no round offers an already committed variable, the committed indices are pairwise distinct. */
  lemma CommittedIndicesDistinct<I, O, Sc, St, C, K, V, A>(s: Setup<I, O, Sc, St, C, K, V, A>, p: Progress<V, A>)
    requires Committed(s, p) && KeysAvoidCommitted(s)
    ensures forall a, b :: 0 <= a < b < |p.important| ==> p.important[a] != p.important[b]
  {
    forall a, b | 0 <= a < b < |p.important|
      ensures p.important[a] != p.important[b]
    {
      assert RoundFaithful(s, p, a) && RoundFaithful(s, p, b);
      var prior := p.important[..b];
      var d := RoundScores(s, prior);
      var w := BestPosition(d).value;
      assert prior[a] == p.important[a];
      assert d[w].0 != s.names[prior[a]];
    }
  }
}
