/**
 * The vote-consistency monitor: it recomputes a role-weighted sentiment from
 * a response, compares its squashed value with the cast vote, and keeps an
 * append-only list of the resulting records.
 */
module VoteMetrics {
  import opened Wrappers
  import opened Squash
  import opened VoteDecision

  /** `datetime.utcnow()`, in microseconds; the clock is a parameter of the model. */
  type Timestamp = int

  /** One stored consistency record. */
  datatype VoteMetric = VoteMetric(
    debateId: int,
    mpRole: string,
    responseSentiment: real,
    voteDecision: string,
    consistencyScore: real,
    timestamp: Timestamp)

  /** The KeyErrors `record_metric` can raise before it stores anything. */
  datatype RecordError =
    | UnknownRole(role: string)       // no entry in the role-weight table
    | MissingVote                     // the decision has no "vote" entry
    | UnknownVoteLabel(given: string) // the vote is not for, against or abstain

  /** The warning logged for a low consistency score, kept as a ghost event. */
  datatype LowConsistencyWarning = LowConsistencyWarning(mpRole: string, debateId: int, consistency: real)

  /** The reference scalar of each vote label. */
  const VoteValues: map<string, real> := map["for" := 1.0, "against" := -1.0, "abstain" := 0.0]

  /**
   * The labels the decision service returns are exactly the keys of the
   * monitor's table, and each carries the sign of its vote: a decision from
   * either vote rule never makes `record_metric` fail on its label.
   */
  lemma DecisionLabelsAreVoteValues(v: Vote, given: string)
    ensures Label(v) in VoteValues
    ensures VoteValues[Label(v)] == (match v case For => 1.0 case Against => -1.0 case Abstain => 0.0)
    ensures given in VoteValues <==> given == Label(For) || given == Label(Against) || given == Label(Abstain)
  {
  }

  /** Below this a consistency score is logged as low and counted as low. */
  const LowConsistency: real := 0.5

  /** `1 - |(tanh(sentiment) - voteValue) / 2|`. */
  function Consistency(tanh: real -> real, sentiment: real, voteValue: real): real
  {
    1.0 - Abs((tanh(sentiment) - voteValue) / 2.0)
  }

  /** For any stored label the score lies in (0, 1]. */
  lemma ConsistencyInUnitInterval(tanh: real -> real, sentiment: real, vote: string)
    requires TanhLike(tanh) && vote in VoteValues
    ensures 0.0 < Consistency(tanh, sentiment, VoteValues[vote]) <= 1.0
  {
    assert -1.0 < tanh(sentiment) < 1.0;
  }

  /** An abstain vote is always more than half consistent: it never draws the warning. */
  lemma AbstainNeverLow(tanh: real -> real, sentiment: real)
    requires TanhLike(tanh)
    ensures Consistency(tanh, sentiment, VoteValues["abstain"]) > LowConsistency
  {
    assert -1.0 < tanh(sentiment) < 1.0;
  }

  /** A vote for is inconsistent exactly when the text leans negative. */
  lemma ForLowIffNegative(tanh: real -> real, sentiment: real)
    requires TanhLike(tanh)
    ensures Consistency(tanh, sentiment, VoteValues["for"]) < LowConsistency <==> sentiment < 0.0
  {
    TanhSign(tanh, sentiment);
    assert -1.0 < tanh(sentiment) < 1.0;
  }

  /** A vote against is inconsistent exactly when the text leans positive. */
  lemma AgainstLowIffPositive(tanh: real -> real, sentiment: real)
    requires TanhLike(tanh)
    ensures Consistency(tanh, sentiment, VoteValues["against"]) < LowConsistency <==> sentiment > 0.0
  {
    TanhSign(tanh, sentiment);
    assert -1.0 < tanh(sentiment) < 1.0;
  }

  /** Full consistency is reached only by abstaining on a neutral text. */
  lemma FullConsistency(tanh: real -> real, sentiment: real, vote: string)
    requires TanhLike(tanh) && vote in VoteValues
    ensures Consistency(tanh, sentiment, VoteValues[vote]) == 1.0 <==> vote == "abstain" && sentiment == 0.0
  {
    TanhSign(tanh, sentiment);
    assert -1.0 < tanh(sentiment) < 1.0;
  }

  /** What the monitor guarantees of a record it stored. */
  ghost predicate Recorded(tanh: real -> real, m: VoteMetric)
  {
    && m.mpRole in RoleWeightTable
    && m.voteDecision in VoteValues
    && m.consistencyScore == Consistency(tanh, m.responseSentiment, VoteValues[m.voteDecision])
  }

  /** What the aggregations rely on: a known role, one of the three labels, a score in (0, 1]. */
  predicate WellFormedMetric(m: VoteMetric)
  {
    && m.mpRole in RoleWeightTable
    && m.voteDecision in VoteValues
    && 0.0 < m.consistencyScore <= 1.0
  }

  predicate AllWellFormed(ms: seq<VoteMetric>)
  {
    forall i :: 0 <= i < |ms| ==> WellFormedMetric(ms[i])
  }

  /** `sum(m.consistency_score for m in ms)`. */
  function SumConsistency(ms: seq<VoteMetric>): real
    decreases |ms|
  {
    if ms == [] then 0.0 else SumConsistency(ms[..|ms| - 1]) + ms[|ms| - 1].consistencyScore
  }

  /** `sum(1 for m in ms if m.consistency_score < 0.5)`. */
  function LowCount(ms: seq<VoteMetric>): nat
    decreases |ms|
  {
    if ms == [] then 0
    else LowCount(ms[..|ms| - 1]) + if ms[|ms| - 1].consistencyScore < LowConsistency then 1 else 0
  }

  lemma {:induction false} LowCountBound(ms: seq<VoteMetric>)
    ensures LowCount(ms) <= |ms|
    decreases |ms|
  {
    if ms != [] {
      LowCountBound(ms[..|ms| - 1]);
    }
  }

  lemma {:induction false} SumConsistencyBounds(ms: seq<VoteMetric>)
    requires AllWellFormed(ms)
    ensures 0.0 <= SumConsistency(ms) <= |ms| as real
    ensures ms != [] ==> SumConsistency(ms) > 0.0
    decreases |ms|
  {
    if ms != [] {
      var init := ms[..|ms| - 1];
      assert forall i :: 0 <= i < |init| ==> init[i] == ms[i];
      assert WellFormedMetric(ms[|ms| - 1]);
      SumConsistencyBounds(init);
    }
  }

  lemma RatioInUnitInterval(a: real, n: real)
    requires 0.0 < a <= n
    ensures 0.0 < a / n <= 1.0
  {
  }

  /** The mean consistency of well-formed records lies in (0, 1]. */
  lemma MeanInUnitInterval(ms: seq<VoteMetric>)
    requires AllWellFormed(ms) && ms != []
    ensures 0.0 < SumConsistency(ms) / (|ms| as real) <= 1.0
  {
    SumConsistencyBounds(ms);
    RatioInUnitInterval(SumConsistency(ms), |ms| as real);
  }

  /** `get_metrics_summary`; the empty summary has no low-consistency count. */
  datatype MetricsSummary = MetricsSummary(
    averageConsistency: real,
    totalVotes: nat,
    lowConsistencyCount: Option<nat>)

  class VoteConsistencyMonitor {
    /** `numpy.tanh`. */
    const tanh: real -> real

    var metrics: seq<VoteMetric>

    /** The low-consistency warnings logged so far. */
    ghost var warnings: seq<LowConsistencyWarning>

    ghost predicate Valid()
      reads this
    {
      && TanhLike(tanh)
      && forall i :: 0 <= i < |metrics| ==> Recorded(tanh, metrics[i])
    }

    constructor(tanh: real -> real)
      requires TanhLike(tanh)
      ensures Valid()
      ensures this.tanh == tanh && metrics == [] && warnings == []
    {
      this.tanh := tanh;
      metrics := [];
      warnings := [];
    }

    /**
     * `record_metric`: scores the response under the role's weights, appends
     * one record and returns its consistency; a KeyError stores nothing.
     */
    method RecordMetric(
      debateId: int,
      mpRole: string,
      responseContent: string,
      voteDecision: map<string, string>,
      now: Timestamp)
      returns (r: Result<real, RecordError>)
      requires Valid()
      modifies this
      ensures Valid()
      ensures mpRole !in RoleWeightTable ==> r == Failure(UnknownRole(mpRole))
      ensures mpRole in RoleWeightTable && "vote" !in voteDecision ==> r == Failure(MissingVote)
      ensures mpRole in RoleWeightTable && "vote" in voteDecision && voteDecision["vote"] !in VoteValues
        ==> r == Failure(UnknownVoteLabel(voteDecision["vote"]))
      ensures r.Success? <==> mpRole in RoleWeightTable && "vote" in voteDecision && voteDecision["vote"] in VoteValues
      ensures r.Failure? ==> metrics == old(metrics) && warnings == old(warnings)
      ensures r.Success? ==>
        && mpRole in RoleWeightTable && "vote" in voteDecision && voteDecision["vote"] in VoteValues
        && var sentiment := ResponseScore(responseContent, RoleWeightTable[mpRole]);
           var cast := voteDecision["vote"];
           && r.value == Consistency(tanh, sentiment, VoteValues[cast])
           && metrics == old(metrics) + [VoteMetric(debateId, mpRole, sentiment, cast, r.value, now)]
           && warnings == old(warnings)
                + if r.value < LowConsistency then [LowConsistencyWarning(mpRole, debateId, r.value)] else []
    {
      var responseAnalysis := AnalyzeResponseSentiment(responseContent);
      if mpRole !in RoleWeightTable {
        return Failure(UnknownRole(mpRole));
      }
      var roleWeights := RoleWeightTable[mpRole];
      var sentimentScore := RoleScore(responseAnalysis, roleWeights);
      if "vote" !in voteDecision {
        return Failure(MissingVote);
      }
      var cast := voteDecision["vote"];
      if cast !in VoteValues {
        return Failure(UnknownVoteLabel(cast));
      }
      var voteValue := VoteValues[cast];
      var consistency := 1.0 - Abs((tanh(sentimentScore) - voteValue) / 2.0);
      var metric := VoteMetric(debateId, mpRole, sentimentScore, cast, consistency, now);
      metrics := metrics + [metric];
      if consistency < LowConsistency {
        warnings := warnings + [LowConsistencyWarning(mpRole, debateId, consistency)];
      }
      r := Success(consistency);
    }

    /** Every stored record is well formed. */
    lemma StoredAreWellFormed()
      requires Valid()
      ensures AllWellFormed(metrics)
    {
      forall i | 0 <= i < |metrics| ensures WellFormedMetric(metrics[i]) {
        ConsistencyInUnitInterval(tanh, metrics[i].responseSentiment, metrics[i].voteDecision);
      }
    }

    /** `get_metrics_summary`. */
    function GetMetricsSummary(): (s: MetricsSummary)
      requires Valid()
      reads this
      ensures s.totalVotes == |metrics|
      ensures s.lowConsistencyCount.None? <==> metrics == []
      ensures s.lowConsistencyCount.Some? ==> s.lowConsistencyCount.value <= s.totalVotes
      ensures metrics == [] ==> s.averageConsistency == 0.0
      ensures metrics != [] ==> 0.0 < s.averageConsistency <= 1.0
    {
      if metrics == [] then MetricsSummary(0.0, 0, None)
      else
        LowCountBound(metrics);
        StoredAreWellFormed();
        MeanInUnitInterval(metrics);
        MetricsSummary(SumConsistency(metrics) / (|metrics| as real), |metrics|, Some(LowCount(metrics)))
    }
  }
}
