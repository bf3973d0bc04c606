/**
 * The monitoring handlers: aggregations over the consistency monitor's list
 * of records, by time window, by role and by debate.
 */
module Monitoring {
  import opened Wrappers
  import opened VoteDecision
  import opened VoteMetrics

  /** The four roles the handlers report on, in their order. */
  const Roster: seq<string> := ["corporate", "academic", "government", "civil_rights"]

  const Hour: int := 3600 * 1000000
  const Day: int := 24 * Hour

  /** The roster is exactly the set of roles with weights, so a stored record's role is on it. */
  lemma RosterIsRoleTable()
    ensures forall role :: role in RoleWeightTable <==> role in Roster
  {
  }

  /*
   * Selection: the list comprehensions `[m for m in metrics if ...]`.
   */

  /** The conditions the handlers filter on. */
  datatype Selector =
    | Since(threshold: Timestamp)   // m.timestamp >= threshold
    | WithRole(role: string)        // m.mp_role == role
    | InDebate(debateId: int)       // m.debate_id == debate_id
    | WithVote(vote: string)        // m.vote_decision == vote

  predicate Selects(sel: Selector, m: VoteMetric)
  {
    match sel
    case Since(t) => m.timestamp >= t
    case WithRole(role) => m.mpRole == role
    case InDebate(d) => m.debateId == d
    case WithVote(v) => m.voteDecision == v
  }

  /** The records of `ms` that `sel` selects, in their order. */
  function Filter(ms: seq<VoteMetric>, sel: Selector): (r: seq<VoteMetric>)
    ensures |r| <= |ms|
    ensures forall m :: m in r <==> m in ms && Selects(sel, m)
    decreases |ms|
  {
    if ms == [] then []
    else
      var init, last := ms[..|ms| - 1], ms[|ms| - 1];
      assert ms == init + [last];
      Filter(init, sel) + if Selects(sel, last) then [last] else []
  }

  lemma FilterSnoc(ms: seq<VoteMetric>, m: VoteMetric, sel: Selector)
    ensures Filter(ms + [m], sel) == Filter(ms, sel) + if Selects(sel, m) then [m] else []
  {
    assert (ms + [m])[..|ms|] == ms;
  }

  /** Filtering keeps well-formed records well formed. */
  lemma FilterWellFormed(ms: seq<VoteMetric>, sel: Selector)
    requires AllWellFormed(ms)
    ensures AllWellFormed(Filter(ms, sel))
  {
    var r := Filter(ms, sel);
    forall i | 0 <= i < |r| ensures WellFormedMetric(r[i]) {
      assert r[i] in ms;
    }
  }

  /*
   * Counting over several selectors: `len([...])` for each role or each vote.
   */

  /** How many of `sels` select `m`. */
  function Hits(sels: seq<Selector>, m: VoteMetric): nat
    decreases |sels|
  {
    if sels == [] then 0
    else Hits(sels[..|sels| - 1], m) + if Selects(sels[|sels| - 1], m) then 1 else 0
  }

  /** The sum over `sels` of the number of records each selects. */
  function SelectedTotal(ms: seq<VoteMetric>, sels: seq<Selector>): nat
    decreases |sels|
  {
    if sels == [] then 0
    else SelectedTotal(ms, sels[..|sels| - 1]) + |Filter(ms, sels[|sels| - 1])|
  }

  lemma {:induction false} SelectedTotalSnoc(ms: seq<VoteMetric>, m: VoteMetric, sels: seq<Selector>)
    ensures SelectedTotal(ms + [m], sels) == SelectedTotal(ms, sels) + Hits(sels, m)
    decreases |sels|
  {
    if sels != [] {
      SelectedTotalSnoc(ms, m, sels[..|sels| - 1]);
      FilterSnoc(ms, m, sels[|sels| - 1]);
    }
  }

  /**
   * When no record is selected twice, the per-selector counts add up to at
   * most the number of records, and to exactly that when each is selected once.
   */
  lemma {:induction false} SelectedTotalBounds(ms: seq<VoteMetric>, sels: seq<Selector>)
    requires forall i :: 0 <= i < |ms| ==> Hits(sels, ms[i]) <= 1
    ensures SelectedTotal(ms, sels) <= |ms|
    ensures (forall i :: 0 <= i < |ms| ==> Hits(sels, ms[i]) == 1) ==> SelectedTotal(ms, sels) == |ms|
    decreases |ms|
  {
    if ms == [] {
      assert SelectedTotal(ms, sels) == 0 by {
        SelectedTotalOfEmpty(sels);
      }
    } else {
      var init, last := ms[..|ms| - 1], ms[|ms| - 1];
      assert ms == init + [last];
      assert forall i :: 0 <= i < |init| ==> init[i] == ms[i];
      SelectedTotalBounds(init, sels);
      SelectedTotalSnoc(init, last, sels);
    }
  }

  lemma {:induction false} SelectedTotalOfEmpty(sels: seq<Selector>)
    ensures SelectedTotal([], sels) == 0
    decreases |sels|
  {
    if sels != [] {
      SelectedTotalOfEmpty(sels[..|sels| - 1]);
    }
  }

  /** One selector per roster role, in roster order. */
  const RoleSelectors: seq<Selector> :=
    [WithRole("corporate"), WithRole("academic"), WithRole("government"), WithRole("civil_rights")]

  /** One selector per vote label. */
  const VoteSelectors: seq<Selector> := [WithVote("for"), WithVote("against"), WithVote("abstain")]

  /** A record is counted under exactly one roster role if its role is on the roster, else under none. */
  lemma RoleHits(m: VoteMetric)
    ensures Hits(RoleSelectors, m) == if m.mpRole in Roster then 1 else 0
  {
    var s1 := [WithRole("corporate")];
    var s2 := s1 + [WithRole("academic")];
    var s3 := s2 + [WithRole("government")];
    assert RoleSelectors == s3 + [WithRole("civil_rights")];
    assert s1[..0] == [] && s2[..1] == s1 && s3[..2] == s2 && RoleSelectors[..3] == s3;
    assert Hits(s1, m) == if m.mpRole == "corporate" then 1 else 0;
    assert Hits(s2, m) == Hits(s1, m) + if m.mpRole == "academic" then 1 else 0;
    assert Hits(s3, m) == Hits(s2, m) + if m.mpRole == "government" then 1 else 0;
  }

  /** A record is counted under exactly one vote if its label is one of the three, else under none. */
  lemma VoteHits(m: VoteMetric)
    ensures Hits(VoteSelectors, m) == if m.voteDecision in VoteValues then 1 else 0
  {
    var s1 := [WithVote("for")];
    var s2 := s1 + [WithVote("against")];
    assert VoteSelectors == s2 + [WithVote("abstain")];
    assert s1[..0] == [] && s2[..1] == s1 && VoteSelectors[..2] == s2;
    assert Hits(s1, m) == if m.voteDecision == "for" then 1 else 0;
    assert Hits(s2, m) == Hits(s1, m) + if m.voteDecision == "against" then 1 else 0;
    assert "against"[1] != "abstain"[1];
  }

  lemma RoleTotalIsSum(ms: seq<VoteMetric>)
    ensures SelectedTotal(ms, RoleSelectors)
      == |Filter(ms, WithRole("corporate"))| + |Filter(ms, WithRole("academic"))|
         + |Filter(ms, WithRole("government"))| + |Filter(ms, WithRole("civil_rights"))|
  {
    var s1 := [WithRole("corporate")];
    var s2 := s1 + [WithRole("academic")];
    var s3 := s2 + [WithRole("government")];
    assert RoleSelectors == s3 + [WithRole("civil_rights")];
    assert s1[..0] == [] && s2[..1] == s1 && s3[..2] == s2 && RoleSelectors[..3] == s3;
    assert SelectedTotal(ms, s1) == |Filter(ms, WithRole("corporate"))|;
    assert SelectedTotal(ms, s2) == SelectedTotal(ms, s1) + |Filter(ms, WithRole("academic"))|;
    assert SelectedTotal(ms, s3) == SelectedTotal(ms, s2) + |Filter(ms, WithRole("government"))|;
  }

  lemma VoteTotalIsSum(ms: seq<VoteMetric>)
    ensures SelectedTotal(ms, VoteSelectors)
      == |Filter(ms, WithVote("for"))| + |Filter(ms, WithVote("against"))| + |Filter(ms, WithVote("abstain"))|
  {
    var s1 := [WithVote("for")];
    var s2 := s1 + [WithVote("against")];
    assert VoteSelectors == s2 + [WithVote("abstain")];
    assert s1[..0] == [] && s2[..1] == s1 && VoteSelectors[..2] == s2;
    assert SelectedTotal(ms, s1) == |Filter(ms, WithVote("for"))|;
    assert SelectedTotal(ms, s2) == SelectedTotal(ms, s1) + |Filter(ms, WithVote("against"))|;
  }

  /** The per-role counts add up to at most the number of records; exactly, when every role is on the roster. */
  lemma RoleCountsAddUp(ms: seq<VoteMetric>)
    ensures |Filter(ms, WithRole("corporate"))| + |Filter(ms, WithRole("academic"))|
            + |Filter(ms, WithRole("government"))| + |Filter(ms, WithRole("civil_rights"))| <= |ms|
    ensures (forall i :: 0 <= i < |ms| ==> ms[i].mpRole in Roster) ==>
            |Filter(ms, WithRole("corporate"))| + |Filter(ms, WithRole("academic"))|
            + |Filter(ms, WithRole("government"))| + |Filter(ms, WithRole("civil_rights"))| == |ms|
  {
    forall i | 0 <= i < |ms| ensures Hits(RoleSelectors, ms[i]) <= 1 {
      RoleHits(ms[i]);
    }
    if forall i :: 0 <= i < |ms| ==> ms[i].mpRole in Roster {
      forall i | 0 <= i < |ms| ensures Hits(RoleSelectors, ms[i]) == 1 {
        RoleHits(ms[i]);
      }
    }
    SelectedTotalBounds(ms, RoleSelectors);
    RoleTotalIsSum(ms);
  }

  /** The for, against and abstain counts add up to the number of well-formed records. */
  lemma VoteCountsAddUp(ms: seq<VoteMetric>)
    requires AllWellFormed(ms)
    ensures |Filter(ms, WithVote("for"))| + |Filter(ms, WithVote("against"))| + |Filter(ms, WithVote("abstain"))| == |ms|
  {
    forall i | 0 <= i < |ms| ensures Hits(VoteSelectors, ms[i]) == 1 {
      assert WellFormedMetric(ms[i]);
      VoteHits(ms[i]);
    }
    SelectedTotalBounds(ms, VoteSelectors);
    VoteTotalIsSum(ms);
  }

  /*
   * The statistics every handler reports for a list of records.
   */

  datatype Stats = Stats(averageConsistency: real, totalVotes: nat, lowConsistencyCount: nat)

  const NoStats := Stats(0.0, 0, 0)

  /** Average, count and low count of a list; all zero for an empty list. */
  function Summarize(ms: seq<VoteMetric>): Stats
  {
    if ms == [] then NoStats
    else Stats(SumConsistency(ms) / (|ms| as real), |ms|, LowCount(ms))
  }

  lemma SummarizeBounds(ms: seq<VoteMetric>)
    ensures Summarize(ms).totalVotes == |ms|
    ensures Summarize(ms).lowConsistencyCount <= Summarize(ms).totalVotes
    ensures ms == [] ==> Summarize(ms) == NoStats
    ensures AllWellFormed(ms) && ms != [] ==> 0.0 < Summarize(ms).averageConsistency <= 1.0
  {
    LowCountBound(ms);
    if AllWellFormed(ms) && ms != [] {
      MeanInUnitInterval(ms);
    }
  }

  /** The statistics of a selection; its mean lies in (0, 1] when the records are well formed. */
  lemma SelectionBounds(ms: seq<VoteMetric>, sel: Selector)
    ensures Summarize(Filter(ms, sel)).totalVotes == |Filter(ms, sel)|
    ensures Summarize(Filter(ms, sel)).lowConsistencyCount <= |Filter(ms, sel)|
    ensures Filter(ms, sel) == [] ==> Summarize(Filter(ms, sel)) == NoStats
    ensures Filter(ms, sel) == [] <==> forall m :: m in ms ==> !Selects(sel, m)
    ensures AllWellFormed(ms) && Filter(ms, sel) != [] ==>
      0.0 < SumConsistency(Filter(ms, sel)) / (|Filter(ms, sel)| as real) <= 1.0
  {
    SummarizeBounds(Filter(ms, sel));
    if Filter(ms, sel) != [] {
      assert Filter(ms, sel)[0] in Filter(ms, sel);
    }
    if AllWellFormed(ms) {
      FilterWellFormed(ms, sel);
    }
  }

  /*
   * `get_vote_consistency_metrics`
   */

  function TimeThresholds(now: Timestamp): map<string, Timestamp>
  {
    map["24h" := now - Day, "7d" := now - 7 * Day, "30d" := now - 30 * Day]
  }

  /** The start of a window ending at `now`; an unknown window name means 24 hours. */
  function Threshold(now: Timestamp, timeWindow: string): (t: Timestamp)
    ensures now - 30 * Day <= t <= now - Day
    ensures timeWindow !in TimeThresholds(now) ==> t == now - Day
  {
    var thresholds := TimeThresholds(now);
    if timeWindow in thresholds then thresholds[timeWindow] else thresholds["24h"]
  }

  datatype WindowMetrics = WindowMetrics(stats: Stats, timeWindow: string)

  function GetVoteConsistencyMetrics(ms: seq<VoteMetric>, now: Timestamp, timeWindow: string): (r: WindowMetrics)
    ensures r.timeWindow == timeWindow
    ensures r.stats.totalVotes == 0 <==> forall m :: m in ms ==> m.timestamp < Threshold(now, timeWindow)
    ensures r.stats.totalVotes == 0 ==> r.stats == NoStats
    ensures r.stats.lowConsistencyCount <= r.stats.totalVotes <= |ms|
    ensures AllWellFormed(ms) && r.stats.totalVotes > 0 ==> 0.0 < r.stats.averageConsistency <= 1.0
  {
    var threshold := Threshold(now, timeWindow);
    var relevantMetrics := Filter(ms, Since(threshold));
    SelectionBounds(ms, Since(threshold));
    if relevantMetrics == [] then WindowMetrics(NoStats, timeWindow)
    else WindowMetrics(Summarize(relevantMetrics), timeWindow)
  }

  /** An unrecognised window name reports the same figures as "24h". */
  lemma UnknownWindowIsDay(ms: seq<VoteMetric>, now: Timestamp, timeWindow: string)
    requires timeWindow !in {"24h", "7d", "30d"}
    ensures GetVoteConsistencyMetrics(ms, now, timeWindow).stats == GetVoteConsistencyMetrics(ms, now, "24h").stats
  {
    assert timeWindow !in TimeThresholds(now);
  }

  /** A later threshold selects no more records. */
  lemma {:induction false} SinceMonotone(ms: seq<VoteMetric>, early: Timestamp, late: Timestamp)
    requires early <= late
    ensures |Filter(ms, Since(late))| <= |Filter(ms, Since(early))|
    decreases |ms|
  {
    if ms != [] {
      SinceMonotone(ms[..|ms| - 1], early, late);
    }
  }

  /** Longer windows count at least as many votes. */
  lemma WindowsNest(ms: seq<VoteMetric>, now: Timestamp)
    ensures GetVoteConsistencyMetrics(ms, now, "24h").stats.totalVotes
         <= GetVoteConsistencyMetrics(ms, now, "7d").stats.totalVotes
         <= GetVoteConsistencyMetrics(ms, now, "30d").stats.totalVotes
  {
    SinceMonotone(ms, now - 7 * Day, now - Day);
    SinceMonotone(ms, now - 30 * Day, now - 7 * Day);
  }

  /*
   * `get_role_metrics`
   */

  /** The figures `get_role_metrics` reports: one entry per roster role. */
  function RoleBreakdown(ms: seq<VoteMetric>): map<string, Stats>
  {
    map role | role in Roster :: Summarize(Filter(ms, WithRole(role)))
  }

  method GetRoleMetrics(ms: seq<VoteMetric>) returns (roleMetrics: map<string, Stats>)
    ensures roleMetrics == RoleBreakdown(ms)
  {
    roleMetrics := map[];
    for i := 0 to |Roster|
      invariant roleMetrics.Keys == set j | 0 <= j < i :: Roster[j]
      invariant forall role :: role in roleMetrics ==> roleMetrics[role] == Summarize(Filter(ms, WithRole(role)))
    {
      var role := Roster[i];
      var roleVotes := Filter(ms, WithRole(role));
      if roleVotes != [] {
        roleMetrics := roleMetrics[role := Stats(
          SumConsistency(roleVotes) / (|roleVotes| as real),
          |roleVotes|,
          LowCount(roleVotes))];
      } else {
        roleMetrics := roleMetrics[role := NoStats];
      }
    }
    assert forall role :: role in Roster <==> role in set j | 0 <= j < |Roster| :: Roster[j];
  }

  /** Every roster role is reported, with its own records' figures, and nothing else. */
  lemma RoleBreakdownEntries(ms: seq<VoteMetric>)
    ensures forall role :: role in RoleBreakdown(ms) <==> role in Roster
    ensures forall role :: role in Roster ==>
      && RoleBreakdown(ms)[role].totalVotes == |Filter(ms, WithRole(role))|
      && RoleBreakdown(ms)[role].lowConsistencyCount <= RoleBreakdown(ms)[role].totalVotes
      && (RoleBreakdown(ms)[role].totalVotes == 0 ==> RoleBreakdown(ms)[role] == NoStats)
  {
    forall role | role in Roster
      ensures RoleBreakdown(ms)[role].lowConsistencyCount <= RoleBreakdown(ms)[role].totalVotes
      ensures RoleBreakdown(ms)[role].totalVotes == |Filter(ms, WithRole(role))|
      ensures RoleBreakdown(ms)[role].totalVotes == 0 ==> RoleBreakdown(ms)[role] == NoStats
    {
      SummarizeBounds(Filter(ms, WithRole(role)));
    }
  }

  /** A record whose role is not on the roster changes no entry. */
  lemma OutsiderIgnored(ms: seq<VoteMetric>, m: VoteMetric)
    requires m.mpRole !in Roster
    ensures RoleBreakdown(ms + [m]) == RoleBreakdown(ms)
  {
    forall role | role in Roster
      ensures Filter(ms + [m], WithRole(role)) == Filter(ms, WithRole(role))
    {
      FilterSnoc(ms, m, WithRole(role));
    }
  }

  /** Over stored records the per-role vote totals add up to the number of records. */
  lemma RoleTotalsAddUp(ms: seq<VoteMetric>)
    requires AllWellFormed(ms)
    ensures RoleBreakdown(ms)["corporate"].totalVotes + RoleBreakdown(ms)["academic"].totalVotes
          + RoleBreakdown(ms)["government"].totalVotes + RoleBreakdown(ms)["civil_rights"].totalVotes == |ms|
  {
    RosterIsRoleTable();
    forall i | 0 <= i < |ms| ensures ms[i].mpRole in Roster {
      assert WellFormedMetric(ms[i]);
    }
    RoleCountsAddUp(ms);
    SelectionBounds(ms, WithRole("corporate"));
    SelectionBounds(ms, WithRole("academic"));
    SelectionBounds(ms, WithRole("government"));
    SelectionBounds(ms, WithRole("civil_rights"));
  }

  /*
   * `get_debate_metrics`
   */

  datatype VoteDistribution = VoteDistribution(forVotes: nat, againstVotes: nat, abstainVotes: nat)

  datatype DebateMetrics = DebateMetrics(
    debateId: int,
    averageConsistency: real,
    votesByRole: map<string, nat>,
    voteDecisions: VoteDistribution,
    message: Option<string>)

  const NoMetricsMessage: string := "No metrics found for this debate"

  function GetDebateMetrics(ms: seq<VoteMetric>, debateId: int): (r: DebateMetrics)
    ensures r.debateId == debateId
    ensures forall role :: role in r.votesByRole <==> role in Roster
    ensures r.message.Some? <==> forall m :: m in ms ==> m.debateId != debateId
    ensures r.message.Some? ==>
      && r.message.value == NoMetricsMessage
      && r.averageConsistency == 0.0
      && r.voteDecisions == VoteDistribution(0, 0, 0)
      && forall role :: role in r.votesByRole ==> r.votesByRole[role] == 0
    ensures forall role :: role in r.votesByRole ==>
      r.votesByRole[role] == |Filter(Filter(ms, InDebate(debateId)), WithRole(role))|
    ensures AllWellFormed(ms) && r.message.None? ==> 0.0 < r.averageConsistency <= 1.0
  {
    var debateMetrics := Filter(ms, InDebate(debateId));
    SelectionBounds(ms, InDebate(debateId));
    DebateReport(debateId, debateMetrics)
  }

  /** The report on the records of one debate. */
  function DebateReport(debateId: int, debateMetrics: seq<VoteMetric>): DebateMetrics
  {
    if debateMetrics == [] then
      DebateMetrics(
        debateId, 0.0,
        map role | role in Roster :: 0,
        VoteDistribution(0, 0, 0),
        Some(NoMetricsMessage))
    else
      DebateMetrics(
        debateId,
        SumConsistency(debateMetrics) / (|debateMetrics| as real),
        map role | role in Roster :: |Filter(debateMetrics, WithRole(role))|,
        VoteDistribution(
          |Filter(debateMetrics, WithVote("for"))|,
          |Filter(debateMetrics, WithVote("against"))|,
          |Filter(debateMetrics, WithVote("abstain"))|),
        None)
  }

  /** For stored records the vote distribution accounts for every record of the debate. */
  lemma DebateVotesAddUp(ms: seq<VoteMetric>, debateId: int)
    requires AllWellFormed(ms)
    ensures var r := GetDebateMetrics(ms, debateId);
      r.voteDecisions.forVotes + r.voteDecisions.againstVotes + r.voteDecisions.abstainVotes
        == |Filter(ms, InDebate(debateId))|
  {
    var debateMetrics := Filter(ms, InDebate(debateId));
    FilterWellFormed(ms, InDebate(debateId));
    VoteCountsAddUp(debateMetrics);
  }

  /**
   * The per-role counts of a debate add up to at most its number of records,
   * and exactly to it when every role is on the roster.
   */
  lemma DebateRolesAddUp(ms: seq<VoteMetric>, debateId: int)
    ensures var c := GetDebateMetrics(ms, debateId).votesByRole;
      && "corporate" in c && "academic" in c && "government" in c && "civil_rights" in c
      && c["corporate"] + c["academic"] + c["government"] + c["civil_rights"] <= |Filter(ms, InDebate(debateId))|
      && ((forall m :: m in ms ==> m.mpRole in Roster) ==>
            c["corporate"] + c["academic"] + c["government"] + c["civil_rights"] == |Filter(ms, InDebate(debateId))|)
  {
    var debateMetrics := Filter(ms, InDebate(debateId));
    var c := GetDebateMetrics(ms, debateId).votesByRole;
    assert "corporate" in Roster && "academic" in Roster && "government" in Roster && "civil_rights" in Roster;
    assert c["corporate"] == |Filter(debateMetrics, WithRole("corporate"))|;
    assert c["academic"] == |Filter(debateMetrics, WithRole("academic"))|;
    assert c["government"] == |Filter(debateMetrics, WithRole("government"))|;
    assert c["civil_rights"] == |Filter(debateMetrics, WithRole("civil_rights"))|;
    if forall m :: m in ms ==> m.mpRole in Roster {
      forall i | 0 <= i < |debateMetrics| ensures debateMetrics[i].mpRole in Roster {
        assert debateMetrics[i] in ms;
      }
    }
    RoleCountsAddUp(debateMetrics);
  }

  /** Records of another debate do not change a debate's report. */
  lemma OtherDebateIgnored(ms: seq<VoteMetric>, m: VoteMetric, debateId: int)
    requires m.debateId != debateId
    ensures GetDebateMetrics(ms + [m], debateId) == GetDebateMetrics(ms, debateId)
  {
    FilterSnoc(ms, m, InDebate(debateId));
    var before, after := Filter(ms, InDebate(debateId)), Filter(ms + [m], InDebate(debateId));
    assert after == before;
    assert GetDebateMetrics(ms, debateId) == DebateReport(debateId, before);
    assert GetDebateMetrics(ms + [m], debateId) == DebateReport(debateId, after);
  }
}
