# Vote decision and vote consistency, modelled in Dafny

The system runs a simulated parliamentary debate between four roles: corporate,
academic, government and civil_rights. This project models the three parts
that decide and audit the votes.

- **Vote decision service** (`backend/services/vote_decision_service.py`),
  module `VoteDecision`.
  - A keyword scorer maps a response text to seven aspect scores. Each score
    is the number of occurrences of the aspect's keywords in the lower-cased
    text, divided by the number of words.
  - A role's weights turn the aspect scores into one signed sentiment.
  - Two rules turn sentiment into a vote. The first is turn-aware: the role's
    own response counts twice, the sum is averaged over the responses plus one,
    and the result is squashed with `tanh`. The second is static: it uses only
    the mean of the role's weights. Python keeps the second definition of
    `calculate_vote_score`, so the static rule is the live one. Both are modelled.
- **Consistency monitor** (`backend/monitoring/vote_metrics.py`), module
  `VoteMetrics`. This is a class with an append-only list of records.
  - `RecordMetric` recomputes a response's weighted sentiment. It scores the
    cast vote against that sentiment as `1 - |(tanh(s) - v) / 2|`, with
    v = 1, -1 or 0 for for, against or abstain.
  - It appends one record and logs a warning below 0.5.
  - `GetMetricsSummary` averages the stored scores.
- **Monitoring handlers** (`backend/routers/monitoring.py`), module
  `Monitoring`. They are filter-and-aggregate functions over the monitor's list:
  - by time window (24h, 7d or 30d, falling back to 24h);
  - by role, over the fixed four-role roster;
  - by debate: the per-role counts and the distribution of votes.

Supporting modules:
- `PyText` models the Python string builtins the scorer uses:
  - `len(s.split())`, with Python's whitespace set;
  - `str.lower()`;
  - `in` on strings;
  - `str.count`, which counts non-overlapping matches from the left.
- `Squash` holds `TanhLike`, the properties of `numpy.tanh` the proofs use:
  odd, strictly increasing, zero at zero, values in (-1, 1). The function
  itself is a parameter. `Softsign` is a witness that these properties can be
  satisfied.
- `Wrappers` holds `Option` and `Result`.

The code clamps neither the consistency score nor the turn-aware confidence.
Over the reals, and with `tanh` strictly inside (-1, 1), no clamp is needed:
- consistency lies in (0, 1] (`VoteMetrics.ConsistencyInUnitInterval`);
- the turn-aware confidence lies in [0, 1) (`VoteDecision.TurnAwareDecisionBounds`).

For the program itself, with float64 arithmetic, the bounds are [0, 1]. `numpy.tanh`
returns exactly 1.0 or -1.0 once its argument is above about 19.06 in absolute
value, and keyword densities are unbounded. For example, one word made of
`privacy` written 30 times scores 30 on the privacy aspect, so the
civil_rights sentiment, with its privacy weight of 0.9, is 27. A vote against
by civil_rights on such a text gets consistency 0.0. As civil_rights' own and
only response, the same text gives civil_rights a turn-aware confidence of 1.0,
since 27 * 2 / (1 + 1) = 27 is past the saturation point.

## Model

| member | source | states |
|---|---|---|
| PyText.Lower | backend/services/vote_decision_service.py:93 | `content.lower()` for the ASCII letters and U+212A KELVIN SIGN, keeping the length of the text |
| PyText.WordCount | backend/services/vote_decision_service.py:90 | `len(content.split())`, the number of maximal runs of non-whitespace characters; `PyText.WordCountPositive` says when it is positive |
| PyText.Contains | backend/services/vote_decision_service.py:93 | `keyword in lowered`: the keyword occurs at some position of the text |
| PyText.Count | backend/services/vote_decision_service.py:95 | `lowered.count(keyword)`, the non-overlapping occurrences from the left; `PyText.CountPositiveIffContains` ties it to `in` |
| PyText.WordCountPositive | backend/services/vote_decision_service.py:90 | `len(content.split())` is positive exactly when the text has a non-whitespace character |
| PyText.CountPositiveIffContains | backend/services/vote_decision_service.py:93-95 | `lowered.count(keyword)` is positive exactly when `keyword in lowered`, so the `in` guard never skips a keyword that `count` would count |
| PyText.LowerOfBlank | backend/services/vote_decision_service.py:90-93 | a text without words still has no non-whitespace character after `lower()` |
| VoteDecision.Label | backend/services/vote_decision_service.py:150-155 | the strings "for", "against" and "abstain" the service returns for its three votes; `VoteMetrics.DecisionLabelsAreVoteValues` ties them to the monitor's table |
| VoteDecision.WeightsOf | backend/services/vote_decision_service.py:123 | `self.role_weights.get(role, {})`: the role's weights, or none for a role without an entry |
| VoteDecision.AspectKeywordsWellFormed | backend/services/vote_decision_service.py:46-54 | the seven aspect names are distinct; every keyword is non-empty and starts with a non-whitespace character |
| VoteDecision.Sentiment | backend/services/vote_decision_service.py:83-100 | the score map of a response; its keys, signs, blank case and densities are stated by the lemmas below |
| VoteDecision.AspectScore | backend/services/vote_decision_service.py:89-96 | one aspect's accumulated score over its keyword list, given the lower-cased text and its word count |
| VoteDecision.ScoresOf | backend/services/vote_decision_service.py:88-98 | the map built over an aspect table, one entry per aspect |
| VoteDecision.AnalyzeResponseSentiment | backend/services/vote_decision_service.py:83-100 | the loop over aspects and keywords returns the score map `Sentiment(content)`, whose properties the lemmas below establish |
| VoteDecision.ScoreAspect | backend/services/vote_decision_service.py:89-96 | the inner `score +=` loop over one aspect's keywords returns `AspectScore` of the lower-cased text and word count, which the lemmas below relate to keyword densities |
| VoteDecision.AspectScoreNonNegative | backend/services/vote_decision_service.py:89-96 | an aspect's accumulated score is never negative |
| VoteDecision.AspectScoreOfBlank | backend/services/vote_decision_service.py:90-96 | with zero words no keyword is found, so no division by zero happens and the score is 0 |
| VoteDecision.KeywordDensityIsRatio | backend/services/vote_decision_service.py:93-96 | for a text with words, a keyword adds its occurrence count over the word count, whether the `in` guard holds or not |
| VoteDecision.AspectScoreIsDensity | backend/services/vote_decision_service.py:92-96 | an aspect's score equals the total occurrences of its keywords divided by the word count |
| VoteDecision.ScoresOfKeys | backend/services/vote_decision_service.py:88-98 | the map built over a table has exactly the table's aspect names as keys |
| VoteDecision.ScoresOfNonNegative | backend/services/vote_decision_service.py:88-98 | every value of the built map is non-negative |
| VoteDecision.ScoresOfLookup | backend/services/vote_decision_service.py:88-98 | with distinct aspect names, each aspect maps to the score of its own keyword list |
| VoteDecision.SentimentKeys | backend/services/vote_decision_service.py:83-100 | the returned map has exactly the seven aspects as keys |
| VoteDecision.SentimentNonNegative | backend/services/vote_decision_service.py:83-100 | every aspect score is non-negative |
| VoteDecision.SentimentOfBlank | backend/services/vote_decision_service.py:89-98 | an empty or whitespace-only response scores 0 on every aspect |
| VoteDecision.SentimentIsDensity | backend/services/vote_decision_service.py:88-98 | the score of aspect j is its keywords' total occurrences in the lower-cased text over the word count |
| VoteDecision.ScoreFor | backend/services/vote_decision_service.py:132 | `sentiment.get(aspect, 0)`: an aspect's score, or 0 when the map has no such key |
| VoteDecision.RoleScore | backend/services/vote_decision_service.py:131-134 | the sum of each weight times its aspect's score, over the role's weights in order |
| VoteDecision.ResponseScore | backend/services/vote_decision_service.py:130-134 | a response's weighted sentiment: `RoleScore` of its score map |
| VoteDecision.RoleScoreIgnoresUnmatched | backend/services/vote_decision_service.py:131-134 | a weight whose aspect has no score (`sentiment.get(aspect, 0)`) contributes nothing to the weighted sum |
| VoteDecision.UnmatchedWeightNames | backend/services/vote_decision_service.py:56-81 | the weight names economic, market, research, evidence, ethics, safety, transparency and rights name no aspect of the keyword table |
| VoteDecision.RoleScoresOfTable | backend/services/vote_decision_service.py:56-81 | the weighted sentiment of each of the four roles, as a formula over the aspect scores its weights actually match |
| VoteDecision.DetermineVote | backend/services/vote_decision_service.py:166-173 | for exactly when the score exceeds 0.3, against exactly when it is below -0.3, abstain exactly in between |
| VoteDecision.DetermineVoteMonotone | backend/services/vote_decision_service.py:166-173 | a higher score never yields a lower vote (against < abstain < for) |
| VoteDecision.FirstByRole | backend/services/vote_decision_service.py:119 | None exactly when no response has the role; otherwise the earliest response with the role |
| VoteDecision.FirstByRoleSnoc | backend/services/vote_decision_service.py:119 | appending a response changes the first response of a role only when the role had none |
| VoteDecision.OthersOf | backend/services/vote_decision_service.py:120 | keeps exactly the responses of other roles and is no longer than the list; `VoteDecision.OthersOfSnoc` fixes their order and multiplicity |
| VoteDecision.OthersOfSnoc | backend/services/vote_decision_service.py:120 | an appended response is kept, once and last, exactly when another role wrote it, so order and duplicates are those of the comprehension |
| VoteDecision.OwnShare | backend/services/vote_decision_service.py:129-135 | the own response's share of the total: twice its score, or 0 when the role has no response |
| VoteDecision.SumScores | backend/services/vote_decision_service.py:138-144 | the sum of the given responses' weighted sentiments, each counted once |
| VoteDecision.TurnAwareTotal | backend/services/vote_decision_service.py:128-144 | `total_score` after both loops: the own share plus the other responses' scores |
| VoteDecision.TurnAwareDecision | backend/services/vote_decision_service.py:122-160 | no opinion for a role without weights; otherwise the vote for `tanh(total / (len(responses) + 1))`, with its absolute value as confidence |
| VoteDecision.ScoreOthers | backend/services/vote_decision_service.py:138-144 | the loop over the other responses returns `SumScores` of them |
| VoteDecision.CalculateVoteScoreTurnAware | backend/services/vote_decision_service.py:102-164 | the loop's total is twice the own response's score plus each other response's score; the result is `TurnAwareDecision` |
| VoteDecision.TurnAwareTotalSnoc | backend/services/vote_decision_service.py:128-144 | appending a response adds its score once if another role wrote it, twice if it is the role's first, and nothing if the role already answered |
| VoteDecision.TurnAwareDecisionBounds | backend/services/vote_decision_service.py:147-160 | confidence lies in [0, 1), and the vote is not abstain exactly when confidence exceeds 0.3 |
| VoteDecision.TurnAwareUnknownRole | backend/services/vote_decision_service.py:123-125 | a role without weights abstains with confidence 0.02, whatever the responses |
| VoteDecision.SumWeights | backend/services/vote_decision_service.py:184 | `sum(weights.values())`, the sum of the role's weights |
| VoteDecision.CalculateVoteScoreStatic | backend/services/vote_decision_service.py:175-201 | an unknown role abstains with 0.02; otherwise the vote is not abstain exactly when confidence exceeds 0.2 |
| VoteDecision.StaticOutcomes | backend/services/vote_decision_service.py:179-197 | corporate abstains with 0.1; academic votes for with 0.5; government for with 0.3; civil_rights for with 0.65, whatever the history |
| VoteDecision.StaticNeverAgainst | backend/services/vote_decision_service.py:184-192 | the live rule never votes against, for any role and any history |
| VoteMetrics.Consistency | backend/monitoring/vote_metrics.py:66-68 | `1 - abs((tanh(sentiment) - vote_value) / 2)` |
| VoteMetrics.DecisionLabelsAreVoteValues | backend/monitoring/vote_metrics.py:59-63 | every label the decision service returns is a key of `vote_values` (for 1, against -1, abstain 0), and those three are its only keys, so a service decision never fails on its label |
| VoteMetrics.ConsistencyInUnitInterval | backend/monitoring/vote_metrics.py:59-68 | for each of the three labels the consistency lies in (0, 1] |
| VoteMetrics.AbstainNeverLow | backend/monitoring/vote_metrics.py:66-85 | an abstain vote scores above 0.5, so it never triggers the low-consistency warning |
| VoteMetrics.ForLowIffNegative | backend/monitoring/vote_metrics.py:66-85 | a vote for scores below 0.5 exactly when the sentiment is negative |
| VoteMetrics.AgainstLowIffPositive | backend/monitoring/vote_metrics.py:66-85 | a vote against scores below 0.5 exactly when the sentiment is positive |
| VoteMetrics.FullConsistency | backend/monitoring/vote_metrics.py:65-68 | consistency is 1 exactly for an abstain vote on a sentiment of 0 |
| VoteMetrics.SumConsistency | backend/monitoring/vote_metrics.py:95 | `sum(m.consistency_score for m in metrics)` |
| VoteMetrics.LowCount | backend/monitoring/vote_metrics.py:97 | `sum(1 for m in metrics if m.consistency_score < 0.5)` |
| VoteMetrics.LowCountBound | backend/monitoring/vote_metrics.py:97 | the number of low scores is at most the number of records |
| VoteMetrics.SumConsistencyBounds | backend/monitoring/vote_metrics.py:95 | the sum of well-formed scores lies between 0 and the number of records, and is positive for a non-empty list |
| VoteMetrics.MeanInUnitInterval | backend/monitoring/vote_metrics.py:95 | the mean of well-formed scores lies in (0, 1] |
| VoteMetrics.VoteConsistencyMonitor.constructor | backend/monitoring/vote_metrics.py:23-25 | a new monitor has no records and no warnings |
| VoteMetrics.VoteConsistencyMonitor.RecordMetric | backend/monitoring/vote_metrics.py:27-87 | an unknown role, a missing vote and an unknown label fail in that order and store nothing; the call succeeds exactly when none of these occurs, and then exactly one record is appended and its consistency is returned; one warning is logged exactly when that score is below 0.5; every stored record keeps its invariant |
| VoteMetrics.VoteConsistencyMonitor.StoredAreWellFormed | backend/monitoring/vote_metrics.py:59-79 | every stored record has a known role, one of the three labels and a score in (0, 1] |
| VoteMetrics.VoteConsistencyMonitor.GetMetricsSummary | backend/monitoring/vote_metrics.py:89-98 | the total is the number of records; the low count is absent exactly when there are no records, and otherwise at most the total; the average is 0 for no records and otherwise in (0, 1] |
| Monitoring.RosterIsRoleTable | backend/routers/monitoring.py:66 | the roster is exactly the set of roles with weights |
| Monitoring.Filter | backend/routers/monitoring.py:38-41 | the selection keeps exactly the records the condition selects, and is no longer than the list |
| Monitoring.FilterWellFormed | backend/routers/monitoring.py:38-41 | a selection of well-formed records is well formed |
| Monitoring.SelectionBounds | backend/routers/monitoring.py:43-57 | a selection's total is its length and its low count is at most that; it is empty exactly when nothing is selected; its mean is in (0, 1] when non-empty and well formed |
| Monitoring.Summarize | backend/routers/monitoring.py:43-57 | the average, total and low count of a selection, all zero when it is empty |
| Monitoring.SummarizeBounds | backend/routers/monitoring.py:43-57 | an empty list has all-zero statistics; the total is the length; the low count is at most the total |
| Monitoring.TimeThresholds | backend/routers/monitoring.py:30-34 | the three window starts: 24 hours, 7 days and 30 days before now |
| Monitoring.Threshold | backend/routers/monitoring.py:29-35 | the threshold lies between 30 days and 24 hours before now; an unknown window name gives 24 hours |
| Monitoring.GetVoteConsistencyMetrics | backend/routers/monitoring.py:13-57 | the window name is echoed; the total is 0 exactly when no record is at or after the threshold, and then all figures are 0; low count at most total at most the number of records; the average is in (0, 1] for well-formed records |
| Monitoring.UnknownWindowIsDay | backend/routers/monitoring.py:35 | any window other than 24h, 7d or 30d reports the same figures as 24h |
| Monitoring.SinceMonotone | backend/routers/monitoring.py:38-41 | a later threshold selects no more records |
| Monitoring.WindowsNest | backend/routers/monitoring.py:30-41 | the 24h total is at most the 7d total, which is at most the 30d total |
| Monitoring.RoleBreakdown | backend/routers/monitoring.py:64-81 | one entry per roster role, holding the statistics of that role's records |
| Monitoring.GetRoleMetrics | backend/routers/monitoring.py:59-81 | the loop over the roster builds `RoleBreakdown(ms)`: one entry per roster role, each the statistics of that role's records |
| Monitoring.RoleBreakdownEntries | backend/routers/monitoring.py:64-81 | the keys are exactly the four roster roles; each total is that role's record count, with low count at most the total; a role without records gets zeros |
| Monitoring.OutsiderIgnored | backend/routers/monitoring.py:66-67 | a record whose role is off the roster changes no entry |
| Monitoring.RoleTotalsAddUp | backend/routers/monitoring.py:66-73 | over stored records the four role totals add up to the number of records |
| Monitoring.RoleHits | backend/routers/monitoring.py:104-107 | a record is counted under exactly one roster role if its role is on the roster, and under none otherwise |
| Monitoring.VoteHits | backend/routers/monitoring.py:108-112 | a record is counted under exactly one vote if its label is for, against or abstain, and under none otherwise |
| Monitoring.RoleCountsAddUp | backend/routers/monitoring.py:104-107 | the four per-role counts add up to at most the number of records, and to exactly that when every role is on the roster |
| Monitoring.VoteCountsAddUp | backend/routers/monitoring.py:108-112 | for well-formed records the for, against and abstain counts add up to the number of records |
| Monitoring.GetDebateMetrics | backend/routers/monitoring.py:83-113 | the message "No metrics found for this debate" appears exactly when no record has the debate id, and then every count and the average are 0; role counts are keyed by the roster and count the debate's records of each role; the average is in (0, 1] for well-formed records |
| Monitoring.DebateReport | backend/routers/monitoring.py:91-113 | the report for a debate's records: the message and all zeros when there are none, otherwise the average, per-role counts and vote distribution |
| Monitoring.DebateVotesAddUp | backend/routers/monitoring.py:101-113 | for stored records the for, against and abstain counts add up to the debate's number of records |
| Monitoring.DebateRolesAddUp | backend/routers/monitoring.py:104-107 | the per-role counts add up to at most the debate's number of records, and to exactly that when every role is on the roster |
| Monitoring.OtherDebateIgnored | backend/routers/monitoring.py:89 | a record of another debate does not change a debate's report |

## Left out

- `numpy.tanh` is a parameter constrained by `TanhLike` rather than a definition. Floating-point rounding is not modelled: all scores are mathematical reals. In particular the model's `tanh` never reaches 1.0 or -1.0, whereas float64 `numpy.tanh` saturates to exactly ±1.0 beyond about ±19.06. So the open bounds proved for consistency and confidence hold for the model only; the program's scores can reach 0.0 and 1.0.
- `str.lower()` is modelled for the ASCII letters and for U+212A KELVIN SIGN, which Python lowers to `k`. For example, the one-word text `MAR\u212AET` contains `market` after lowering. Other letters are left unchanged. Python lowers U+0130 (capital I with dot above) to two characters, `i` followed by U+0307. The model keeps U+0130 as one character, so its lowered text can be shorter than Python's. No keyword ends in `i` or contains U+0307, so this cannot add or remove a keyword match; the model does not prove this. All other lowered letters are non-ASCII and cannot take part in a match of the ASCII keywords.
- Timestamps are integer microseconds, and the clock (`datetime.utcnow()`) is a parameter: the `now` argument.
- Logging: the warning in `record_metric` is a ghost list of warning events. The error logged by the two `except` branches is not modelled.
- The `except` fallbacks of both `calculate_vote_score` definitions are not modelled. With string contents no exception can arise:
  - a keyword is never found in a text without words, so no division by zero happens (`VoteDecision.AspectScoreOfBlank`);
  - `len(responses) + 1` is positive.
- `vote_decision["vote"]` values that are not strings, and a `None` response content, are outside the model: map values and contents are strings.
- `record_metric` takes the service object only to reach its fixed tables; the model reads the same tables as module constants.
- Python dict iteration order is the order of the source's literals. The model keeps those orders as sequences.
- The turn-aware rule's `if own_response:` is modelled as "a response with the role exists". The response objects are always truthy.
- `DebateMetrics.metrics` is omitted: both paths of `get_debate_metrics` leave it `None`.
- The handlers receive the monitor's `metrics` list as a value. HTTP routing, dependency injection and `async` scheduling are left out: `record_metric` contains no `await`, so it runs as one step.
- The unused `role_definitions` table of the decision service has no counterpart.
- Not part of this model, because they are I/O, HTTP or UI code:
  - LLM calls (`backend/services/openai_service.py`);
  - paper retrieval (`backend/services/arxiv_service.py`);
  - the debate simulator and its REST clients;
  - persistence (SQLAlchemy repositories and models);
  - the other routers;
  - the frontend.
- No vote-tallying or verdict rule exists in the source, so none is modelled.
