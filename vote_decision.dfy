/**
 * The vote-decision service: the static keyword and role-weight tables,
 * the keyword aspect scorer, the vote thresholds and the two definitions
 * of the vote score (the turn-aware one and the static one that replaces
 * it at class-definition time).
 */
module VoteDecision {
  import opened Wrappers
  import opened PyText
  import opened Squash

  // ---------------------------------------------------------------------
  // Votes and decisions
  // ---------------------------------------------------------------------

  datatype Vote = For | Against | Abstain

  /** The string the service and the monitor use for a vote. */
  function Label(v: Vote): string
  {
    match v
    case For => "for"
    case Against => "against"
    case Abstain => "abstain"
  }

  /** The result dictionary `{"vote": ..., "confidence": ...}`. */
  datatype Decision = Decision(vote: Vote, confidence: real)

  /** What both vote rules return for a role without weights, or on an error. */
  const NoOpinion := Decision(Abstain, 0.02)

  /** A debate response as the turn-aware rule reads it. */
  datatype Response = Response(mpRole: string, content: string)

  // ---------------------------------------------------------------------
  // Static tables
  // ---------------------------------------------------------------------

  type AspectTable = seq<(string, seq<string>)>

  /** Aspect name and its keywords, in the service's order. */
  const AspectKeywords: AspectTable := [
    ("economic_impact", ["cost", "economy", "market", "business", "financial"]),
    ("innovation", ["research", "development", "progress", "advancement"]),
    ("regulation", ["rules", "compliance", "standards", "requirements"]),
    ("social_impact", ["society", "community", "public", "people"]),
    ("privacy", ["privacy", "data", "personal", "surveillance"]),
    ("fairness", ["equality", "bias", "discrimination", "fair"]),
    ("implementation", ["implement", "deploy", "execute", "operate"])
  ]

  const AspectNames: set<string> := {
    "economic_impact", "innovation", "regulation", "social_impact",
    "privacy", "fairness", "implementation"
  }

  /** A role's weights: aspect name and signed weight. */
  type Weights = seq<(string, real)>

  const RoleWeightTable: map<string, Weights> := map[
    "corporate" := [("economic", 0.8), ("innovation", 0.7), ("regulation", -0.6), ("market", 0.9)],
    "academic" := [("research", 0.9), ("evidence", 0.8), ("innovation", 0.7), ("ethics", 0.6)],
    "government" := [("safety", 0.8), ("regulation", 0.7), ("economic", 0.5), ("implementation", 0.6)],
    "civil_rights" := [("privacy", 0.9), ("ethics", 0.8), ("transparency", 0.7), ("rights", 0.9)]
  ]

  /** `role_weights.get(role, {})`. */
  function WeightsOf(role: string): Weights
  {
    if role in RoleWeightTable then RoleWeightTable[role] else []
  }

  // ---------------------------------------------------------------------
  // Keyword aspect scorer
  // ---------------------------------------------------------------------

  predicate IsKeyword(k: string)
  {
    k != [] && !IsSpace(k[0])
  }

  predicate AllKeywords(keywords: seq<string>)
  {
    forall j :: 0 <= j < |keywords| ==> IsKeyword(keywords[j])
  }

  predicate WellFormedTable(t: AspectTable)
  {
    forall i :: 0 <= i < |t| ==> AllKeywords(t[i].1)
  }

  predicate DistinctNames(t: AspectTable)
  {
    forall i, j :: 0 <= i < j < |t| ==> t[i].0 != t[j].0
  }

  lemma AspectKeywordsWellFormed()
    ensures WellFormedTable(AspectKeywords) && DistinctNames(AspectKeywords)
  {
    KeywordsWellFormed();
    AspectNamesDistinct();
  }

  lemma KeywordsWellFormed()
    ensures WellFormedTable(AspectKeywords)
  {
    LettersAreNotSpace();
    var t := AspectKeywords;
    assert AllKeywords(t[0].1) && AllKeywords(t[1].1) && AllKeywords(t[2].1);
    assert AllKeywords(t[3].1) && AllKeywords(t[4].1) && AllKeywords(t[5].1);
    assert AllKeywords(t[6].1);
  }

  lemma AspectNamesDistinct()
    ensures DistinctNames(AspectKeywords)
  {
    assert "innovation"[0] != "regulation"[0];
  }

  /**
   * The word count of a text agrees with its lower-cased form: a text
   * counted as having no words has no non-whitespace character.
   */
  predicate WordsAgree(lowered: string, wordCount: nat)
  {
    wordCount == 0 ==> !HasNonSpace(lowered)
  }

  /**
   * One keyword's contribution: its occurrence count in the lower-cased text
   * over the text's word count, or nothing when it does not occur.
   */
  function KeywordDensity(lowered: string, wordCount: nat, keyword: string): (r: real)
    requires IsKeyword(keyword) && WordsAgree(lowered, wordCount)
  {
    if Contains(lowered, keyword) then
      ContainsNonSpace(lowered, keyword);
      (Count(lowered, keyword) as real) / (wordCount as real)
    else
      0.0
  }

  /** The score of one aspect: the sum of its keywords' contributions. */
  function AspectScore(lowered: string, wordCount: nat, keywords: seq<string>): real
    requires AllKeywords(keywords) && WordsAgree(lowered, wordCount)
    decreases |keywords|
  {
    if keywords == [] then 0.0
    else
      AspectScore(lowered, wordCount, keywords[..|keywords| - 1])
      + KeywordDensity(lowered, wordCount, keywords[|keywords| - 1])
  }

  lemma ContentWordsAgree(content: string)
    ensures WordsAgree(Lower(content), WordCount(content))
  {
    if WordCount(content) == 0 {
      LowerOfBlank(content);
    }
  }

  /** An aspect's score for a response text. */
  function ContentScore(content: string, keywords: seq<string>): real
    requires AllKeywords(keywords)
  {
    ContentWordsAgree(content);
    AspectScore(Lower(content), WordCount(content), keywords)
  }

  /** The aspect-to-score map built from the first entries of a table. */
  function ScoresOf(content: string, t: AspectTable): map<string, real>
    requires WellFormedTable(t)
    decreases |t|
  {
    if t == [] then map[]
    else ScoresOf(content, t[..|t| - 1])[t[|t| - 1].0 := ContentScore(content, t[|t| - 1].1)]
  }

  /** What `analyze_response_sentiment(content)` returns. */
  function Sentiment(content: string): map<string, real>
  {
    AspectKeywordsWellFormed();
    ScoresOf(content, AspectKeywords)
  }

  /** `analyze_response_sentiment`: fills the score map aspect by aspect. */
  method AnalyzeResponseSentiment(content: string) returns (aspectsScore: map<string, real>)
    ensures aspectsScore == Sentiment(content)
  {
    AspectKeywordsWellFormed();
    ContentWordsAgree(content);
    var lowered := Lower(content);
    var wordCount := WordCount(content);
    aspectsScore := map[];
    for i := 0 to |AspectKeywords|
      invariant aspectsScore == ScoresOf(content, AspectKeywords[..i])
    {
      var (aspect, keywords) := AspectKeywords[i];
      var score := ScoreAspect(lowered, wordCount, keywords);
      assert AspectKeywords[..i + 1][..i] == AspectKeywords[..i];
      aspectsScore := aspectsScore[aspect := score];
    }
    assert AspectKeywords[..|AspectKeywords|] == AspectKeywords;
  }

  /** The inner loop of `analyze_response_sentiment`: one aspect's `score +=` accumulation. */
  method ScoreAspect(lowered: string, wordCount: nat, keywords: seq<string>) returns (score: real)
    requires AllKeywords(keywords) && WordsAgree(lowered, wordCount)
    ensures score == AspectScore(lowered, wordCount, keywords)
  {
    score := 0.0;
    for j := 0 to |keywords|
      invariant score == AspectScore(lowered, wordCount, keywords[..j])
    {
      var keyword := keywords[j];
      if Contains(lowered, keyword) {
        var occurrences := Count(lowered, keyword);
        ContainsNonSpace(lowered, keyword);
        score := score + (occurrences as real) / (wordCount as real);
      }
      assert keywords[..j + 1][..j] == keywords[..j];
    }
    assert keywords[..|keywords|] == keywords;
  }

  /** Total occurrences of the keywords in a text. */
  function Occurrences(lowered: string, keywords: seq<string>): nat
    requires AllKeywords(keywords)
    decreases |keywords|
  {
    if keywords == [] then 0
    else Occurrences(lowered, keywords[..|keywords| - 1]) + Count(lowered, keywords[|keywords| - 1])
  }

  lemma SumOfRatios(a: real, b: real, w: real)
    requires w > 0.0
    ensures a / w + b / w == (a + b) / w
  {
  }

  lemma RatioNonNegative(n: nat, w: nat)
    requires w > 0
    ensures (n as real) / (w as real) >= 0.0
  {
  }

  lemma {:induction false} AspectScoreNonNegative(lowered: string, wordCount: nat, keywords: seq<string>)
    requires AllKeywords(keywords) && WordsAgree(lowered, wordCount)
    ensures AspectScore(lowered, wordCount, keywords) >= 0.0
    decreases |keywords|
  {
    if keywords != [] {
      var k := keywords[|keywords| - 1];
      AspectScoreNonNegative(lowered, wordCount, keywords[..|keywords| - 1]);
      if Contains(lowered, k) {
        ContainsNonSpace(lowered, k);
        RatioNonNegative(Count(lowered, k), wordCount);
      }
    }
  }

  /** A text without words scores zero on every keyword list: no division happens. */
  lemma {:induction false} AspectScoreOfBlank(lowered: string, keywords: seq<string>)
    requires AllKeywords(keywords) && WordsAgree(lowered, 0)
    ensures AspectScore(lowered, 0, keywords) == 0.0
    decreases |keywords|
  {
    if keywords != [] {
      var k := keywords[|keywords| - 1];
      AspectScoreOfBlank(lowered, keywords[..|keywords| - 1]);
      if Contains(lowered, k) {
        ContainsNonSpace(lowered, k);
      }
    }
  }

  /** For a text with words, a keyword contributes its count over the word count, absent or not. */
  lemma KeywordDensityIsRatio(lowered: string, wordCount: nat, keyword: string)
    requires IsKeyword(keyword) && wordCount > 0
    ensures KeywordDensity(lowered, wordCount, keyword)
         == (Count(lowered, keyword) as real) / (wordCount as real)
  {
    CountPositiveIffContains(lowered, keyword);
  }

  /**
   * For a text with words, an aspect's score is the total occurrence count of
   * its keywords divided by the word count; an absent keyword adds nothing.
   */
  lemma {:induction false} AspectScoreIsDensity(lowered: string, wordCount: nat, keywords: seq<string>)
    requires AllKeywords(keywords) && wordCount > 0
    ensures AspectScore(lowered, wordCount, keywords)
         == (Occurrences(lowered, keywords) as real) / (wordCount as real)
    decreases |keywords|
  {
    if keywords != [] {
      var init, k := keywords[..|keywords| - 1], keywords[|keywords| - 1];
      AspectScoreIsDensity(lowered, wordCount, init);
      KeywordDensityIsRatio(lowered, wordCount, k);
      SumOfRatios(Occurrences(lowered, init) as real, Count(lowered, k) as real, wordCount as real);
    }
  }

  lemma {:induction false} ScoresOfKeys(content: string, t: AspectTable)
    requires WellFormedTable(t)
    ensures forall i :: 0 <= i < |t| ==> t[i].0 in ScoresOf(content, t)
    ensures forall a :: a in ScoresOf(content, t) ==> exists i :: 0 <= i < |t| && t[i].0 == a
    decreases |t|
  {
    if t != [] {
      var init := t[..|t| - 1];
      ScoresOfKeys(content, init);
      forall i | 0 <= i < |t| ensures t[i].0 in ScoresOf(content, t) {
        if i < |init| {
          assert init[i] == t[i];
        }
      }
      forall a | a in ScoresOf(content, t) ensures exists i :: 0 <= i < |t| && t[i].0 == a {
        if a != t[|t| - 1].0 {
          var i :| 0 <= i < |init| && init[i].0 == a;
          assert t[i] == init[i];
        }
      }
    }
  }

  lemma {:induction false} ScoresOfNonNegative(content: string, t: AspectTable)
    requires WellFormedTable(t)
    ensures forall a :: a in ScoresOf(content, t) ==> ScoresOf(content, t)[a] >= 0.0
    decreases |t|
  {
    if t != [] {
      ScoresOfNonNegative(content, t[..|t| - 1]);
      ContentWordsAgree(content);
      AspectScoreNonNegative(Lower(content), WordCount(content), t[|t| - 1].1);
    }
  }

  lemma {:induction false} ScoresOfLookup(content: string, t: AspectTable, j: nat)
    requires WellFormedTable(t) && DistinctNames(t)
    requires j < |t|
    ensures t[j].0 in ScoresOf(content, t)
    ensures ScoresOf(content, t)[t[j].0] == ContentScore(content, t[j].1)
    decreases |t|
  {
    if j < |t| - 1 {
      var init := t[..|t| - 1];
      assert init[j] == t[j];
      ScoresOfLookup(content, init, j);
    }
  }

  /** The result's keys are exactly the seven aspects of the keyword table. */
  lemma SentimentKeys(content: string)
    ensures Sentiment(content).Keys == AspectNames
  {
    AspectKeywordsWellFormed();
    ScoresOfKeys(content, AspectKeywords);
    var t := AspectKeywords;
    assert t[0].0 == "economic_impact" && t[1].0 == "innovation" && t[2].0 == "regulation";
    assert t[3].0 == "social_impact" && t[4].0 == "privacy" && t[5].0 == "fairness";
    assert t[6].0 == "implementation";
    forall a | a in Sentiment(content) ensures a in AspectNames {
      var i :| 0 <= i < |t| && t[i].0 == a;
      assert i in {0, 1, 2, 3, 4, 5, 6};
    }
  }

  /** Every aspect score is non-negative. */
  lemma SentimentNonNegative(content: string)
    ensures forall a :: a in Sentiment(content) ==> Sentiment(content)[a] >= 0.0
  {
    AspectKeywordsWellFormed();
    ScoresOfNonNegative(content, AspectKeywords);
  }

  /** Empty or whitespace-only text scores zero on every aspect (no division happens). */
  lemma SentimentOfBlank(content: string)
    requires !HasNonSpace(content)
    ensures forall a :: a in Sentiment(content) ==> Sentiment(content)[a] == 0.0
  {
    AspectKeywordsWellFormed();
    WordCountPositive(content);
    forall a | a in Sentiment(content) ensures Sentiment(content)[a] == 0.0 {
      ScoresOfKeys(content, AspectKeywords);
      var j :| 0 <= j < |AspectKeywords| && AspectKeywords[j].0 == a;
      ScoresOfLookup(content, AspectKeywords, j);
      ContentWordsAgree(content);
      AspectScoreOfBlank(Lower(content), AspectKeywords[j].1);
    }
  }

  /** The keywords of aspect `j`. */
  function KeywordsOf(j: nat): (keywords: seq<string>)
    requires j < |AspectKeywords|
    ensures AllKeywords(keywords)
  {
    AspectKeywordsWellFormed();
    AspectKeywords[j].1
  }

  /** Aspect `j` scores (total keyword occurrences in the lower-cased text) / (word count). */
  lemma SentimentIsDensity(content: string, j: nat)
    requires j < |AspectKeywords|
    ensures AspectKeywords[j].0 in Sentiment(content)
    ensures var n := WordCount(content);
      Sentiment(content)[AspectKeywords[j].0]
        == if n == 0 then 0.0 else (Occurrences(Lower(content), KeywordsOf(j)) as real) / (n as real)
  {
    AspectKeywordsWellFormed();
    ScoresOfLookup(content, AspectKeywords, j);
    ContentWordsAgree(content);
    if WordCount(content) == 0 {
      AspectScoreOfBlank(Lower(content), KeywordsOf(j));
    } else {
      AspectScoreIsDensity(Lower(content), WordCount(content), KeywordsOf(j));
    }
  }

  // ---------------------------------------------------------------------
  // Weighted sentiment of one response
  // ---------------------------------------------------------------------

  /** `sentiment.get(aspect, 0)`. */
  function ScoreFor(sentiment: map<string, real>, aspect: string): real
  {
    if aspect in sentiment then sentiment[aspect] else 0.0
  }

  /** `sum(sentiment.get(aspect, 0) * weight for aspect, weight in weights.items())`. */
  function RoleScore(sentiment: map<string, real>, weights: Weights): real
    decreases |weights|
  {
    if weights == [] then 0.0
    else
      var (aspect, weight) := weights[|weights| - 1];
      RoleScore(sentiment, weights[..|weights| - 1]) + ScoreFor(sentiment, aspect) * weight
  }

  /** The weights whose aspect the sentiment map has. */
  function Matched(weights: Weights, aspects: set<string>): (r: Weights)
    ensures forall i :: 0 <= i < |r| ==> r[i].0 in aspects
    decreases |weights|
  {
    if weights == [] then []
    else
      var init := Matched(weights[..|weights| - 1], aspects);
      if weights[|weights| - 1].0 in aspects then init + [weights[|weights| - 1]] else init
  }

  /** A weight whose aspect has no score contributes nothing. */
  lemma {:induction false} RoleScoreIgnoresUnmatched(sentiment: map<string, real>, weights: Weights)
    ensures RoleScore(sentiment, weights) == RoleScore(sentiment, Matched(weights, sentiment.Keys))
    decreases |weights|
  {
    if weights != [] {
      var init, last := weights[..|weights| - 1], weights[|weights| - 1];
      RoleScoreIgnoresUnmatched(sentiment, init);
      var m := Matched(init, sentiment.Keys);
      if last.0 in sentiment.Keys {
        assert (m + [last])[..|m + [last]| - 1] == m;
      }
    }
  }

  lemma RoleScoreOfFour(sentiment: map<string, real>, w: Weights)
    requires |w| == 4
    ensures RoleScore(sentiment, w)
         == ScoreFor(sentiment, w[0].0) * w[0].1 + ScoreFor(sentiment, w[1].0) * w[1].1
          + ScoreFor(sentiment, w[2].0) * w[2].1 + ScoreFor(sentiment, w[3].0) * w[3].1
  {
    assert w[..3][..2] == w[..2] && w[..2][..1] == w[..1] && w[..1][..0] == [];
    assert RoleScore(sentiment, w) == RoleScore(sentiment, w[..3]) + ScoreFor(sentiment, w[3].0) * w[3].1;
    assert RoleScore(sentiment, w[..3]) == RoleScore(sentiment, w[..2]) + ScoreFor(sentiment, w[2].0) * w[2].1;
    assert RoleScore(sentiment, w[..2]) == RoleScore(sentiment, w[..1]) + ScoreFor(sentiment, w[1].0) * w[1].1;
    assert RoleScore(sentiment, w[..1]) == ScoreFor(sentiment, w[0].0) * w[0].1;
  }

  /** The weight names of the role table that name no aspect. */
  lemma UnmatchedWeightNames()
    ensures "economic" !in AspectNames && "market" !in AspectNames
    ensures "research" !in AspectNames && "evidence" !in AspectNames && "ethics" !in AspectNames
    ensures "safety" !in AspectNames && "transparency" !in AspectNames && "rights" !in AspectNames
  {
  }

  /**
   * With the tables as they stand, each role's weighted sentiment rests on at
   * most two aspects: the other weight names are not aspect names.
   */
  lemma RoleScoresOfTable(s: map<string, real>)
    requires s.Keys == AspectNames
    ensures RoleScore(s, WeightsOf("corporate")) == s["innovation"] * 0.7 - s["regulation"] * 0.6
    ensures RoleScore(s, WeightsOf("academic")) == s["innovation"] * 0.7
    ensures RoleScore(s, WeightsOf("government")) == s["regulation"] * 0.7 + s["implementation"] * 0.6
    ensures RoleScore(s, WeightsOf("civil_rights")) == s["privacy"] * 0.9
  {
    UnmatchedWeightNames();
    var c, a := WeightsOf("corporate"), WeightsOf("academic");
    var g, r := WeightsOf("government"), WeightsOf("civil_rights");
    assert c == [("economic", 0.8), ("innovation", 0.7), ("regulation", -0.6), ("market", 0.9)];
    assert a == [("research", 0.9), ("evidence", 0.8), ("innovation", 0.7), ("ethics", 0.6)];
    assert g == [("safety", 0.8), ("regulation", 0.7), ("economic", 0.5), ("implementation", 0.6)];
    assert r == [("privacy", 0.9), ("ethics", 0.8), ("transparency", 0.7), ("rights", 0.9)];
    RoleScoreOfFour(s, c);
    RoleScoreOfFour(s, a);
    RoleScoreOfFour(s, g);
    RoleScoreOfFour(s, r);
  }

  // ---------------------------------------------------------------------
  // Thresholds
  // ---------------------------------------------------------------------

  /** `_determine_vote`: above 0.3 is for, below -0.3 against, abstain in between. */
  function DetermineVote(score: real): (v: Vote)
    ensures v == For <==> score > 0.3
    ensures v == Against <==> score < -0.3
    ensures v == Abstain <==> -0.3 <= score <= 0.3
  {
    if score > 0.3 then For
    else if score < -0.3 then Against
    else Abstain
  }

  function VoteRank(v: Vote): int
  {
    match v
    case Against => -1
    case Abstain => 0
    case For => 1
  }

  /** A higher score never yields a lower vote. */
  lemma DetermineVoteMonotone(a: real, b: real)
    requires a <= b
    ensures VoteRank(DetermineVote(a)) <= VoteRank(DetermineVote(b))
  {
  }

  // ---------------------------------------------------------------------
  // Turn-aware vote score (the first definition of calculate_vote_score)
  // ---------------------------------------------------------------------

  /** `next((r for r in responses if r.mp_role == role), None)`. */
  function FirstByRole(responses: seq<Response>, role: string): (r: Option<Response>)
    ensures r.None? <==> forall i :: 0 <= i < |responses| ==> responses[i].mpRole != role
    ensures r.Some? ==> r.value.mpRole == role
    ensures r.Some? ==> exists i :: (0 <= i < |responses| && responses[i] == r.value
      && forall j :: 0 <= j < i ==> responses[j].mpRole != role)
    decreases |responses|
  {
    if responses == [] then None
    else if responses[0].mpRole == role then Some(responses[0])
    else
      var r := FirstByRole(responses[1..], role);
      if r.Some? then
        var i :| 0 <= i < |responses[1..]| && responses[1..][i] == r.value
          && forall j :: 0 <= j < i ==> responses[1..][j].mpRole != role;
        assert responses[i + 1] == r.value;
        assert forall j :: 0 <= j < i + 1 ==> responses[j].mpRole != role by {
          forall j | 0 <= j < i + 1 ensures responses[j].mpRole != role {
            if j > 0 {
              assert responses[j] == responses[1..][j - 1];
            }
          }
        }
        r
      else
        assert forall i :: 0 <= i < |responses| ==> responses[i].mpRole != role by {
          forall i | 0 <= i < |responses| ensures responses[i].mpRole != role {
            if i > 0 {
              assert responses[i] == responses[1..][i - 1];
            }
          }
        }
        r
  }

  /** `[r for r in responses if r.mp_role != role]`. */
  function OthersOf(responses: seq<Response>, role: string): (r: seq<Response>)
    ensures forall x :: x in r <==> x in responses && x.mpRole != role
    ensures |r| <= |responses|
    decreases |responses|
  {
    if responses == [] then []
    else
      var last := responses[|responses| - 1];
      assert responses == responses[..|responses| - 1] + [last];
      OthersOf(responses[..|responses| - 1], role) + if last.mpRole != role then [last] else []
  }

  /** Appending a response keeps it, once and last, exactly when another role wrote it. */
  lemma OthersOfSnoc(responses: seq<Response>, role: string, x: Response)
    ensures OthersOf(responses + [x], role) == OthersOf(responses, role) + if x.mpRole != role then [x] else []
  {
    var rs := responses + [x];
    assert rs[..|rs| - 1] == responses;
  }

  /** A response's weighted sentiment under a role's weights. */
  function ResponseScore(content: string, weights: Weights): real
  {
    RoleScore(Sentiment(content), weights)
  }

  /** The sum, over responses, of their weighted sentiment. */
  function SumScores(responses: seq<Response>, weights: Weights): real
    decreases |responses|
  {
    if responses == [] then 0.0
    else SumScores(responses[..|responses| - 1], weights) + ResponseScore(responses[|responses| - 1].content, weights)
  }

  /** The own response's share of the total: twice its score, or nothing. */
  function OwnShare(responses: seq<Response>, role: string): real
  {
    match FirstByRole(responses, role)
    case None => 0.0
    case Some(own) => ResponseScore(own.content, WeightsOf(role)) * 2.0
  }

  /** `total_score` once both loops of the turn-aware rule have run. */
  function TurnAwareTotal(role: string, responses: seq<Response>): real
  {
    OwnShare(responses, role) + SumScores(OthersOf(responses, role), WeightsOf(role))
  }

  /** The decision of the turn-aware rule. */
  function TurnAwareDecision(tanh: real -> real, role: string, responses: seq<Response>): Decision
  {
    if WeightsOf(role) == [] then NoOpinion
    else
      var finalScore := tanh(TurnAwareTotal(role, responses) / ((|responses| + 1) as real));
      Decision(DetermineVote(finalScore), Abs(finalScore))
  }

  /** The first definition of `calculate_vote_score` (own response counted twice). */
  method CalculateVoteScoreTurnAware(tanh: real -> real, role: string, responses: seq<Response>)
    returns (d: Decision)
    ensures d == TurnAwareDecision(tanh, role, responses)
  {
    var ownResponse := FirstByRole(responses, role);
    var otherResponses := OthersOf(responses, role);
    var weights := WeightsOf(role);
    if weights == [] {
      return NoOpinion;
    }
    var totalScore := 0.0;
    if ownResponse.Some? {
      var sentiment := AnalyzeResponseSentiment(ownResponse.value.content);
      var ownScore := RoleScore(sentiment, weights);
      assert ownScore == ResponseScore(ownResponse.value.content, WeightsOf(role));
      totalScore := totalScore + ownScore * 2.0;
    }
    assert totalScore == OwnShare(responses, role);
    var othersScore := ScoreOthers(otherResponses, weights);
    totalScore := totalScore + othersScore;
    assert totalScore == TurnAwareTotal(role, responses);
    var finalScore := tanh(totalScore / ((|responses| + 1) as real));
    var vote;
    if finalScore > 0.3 {
      vote := For;
    } else if finalScore < -0.3 {
      vote := Against;
    } else {
      vote := Abstain;
    }
    assert vote == DetermineVote(finalScore);
    d := Decision(vote, Abs(finalScore));
  }

  /** The loop over the other responses: each adds its weighted sentiment once. */
  method ScoreOthers(otherResponses: seq<Response>, weights: Weights) returns (total: real)
    ensures total == SumScores(otherResponses, weights)
  {
    total := 0.0;
    assert otherResponses[..0] == [];
    for i := 0 to |otherResponses|
      invariant total == SumScores(otherResponses[..i], weights)
    {
      var sentiment := AnalyzeResponseSentiment(otherResponses[i].content);
      var score := RoleScore(sentiment, weights);
      assert score == ResponseScore(otherResponses[i].content, weights);
      assert otherResponses[..i + 1][..i] == otherResponses[..i];
      total := total + score;
    }
    assert otherResponses[..|otherResponses|] == otherResponses;
  }

  lemma {:induction false} FirstByRoleSnoc(responses: seq<Response>, role: string, x: Response)
    ensures FirstByRole(responses + [x], role)
         == if FirstByRole(responses, role).Some? then FirstByRole(responses, role)
            else if x.mpRole == role then Some(x) else None
    decreases |responses|
  {
    if responses != [] {
      assert (responses + [x])[1..] == responses[1..] + [x];
      FirstByRoleSnoc(responses[1..], role, x);
    }
  }

  /**
   * How one more response changes the turn-aware total: another role's
   * response adds its score once, the role's first response adds it twice,
   * and any later response by the role adds nothing.
   */
  lemma TurnAwareTotalSnoc(role: string, responses: seq<Response>, x: Response)
    ensures TurnAwareTotal(role, responses + [x])
         == TurnAwareTotal(role, responses)
            + if x.mpRole != role then ResponseScore(x.content, WeightsOf(role))
              else if FirstByRole(responses, role).None? then ResponseScore(x.content, WeightsOf(role)) * 2.0
              else 0.0
  {
    var rs := responses + [x];
    assert rs[..|rs| - 1] == responses;
    FirstByRoleSnoc(responses, role, x);
    var others := OthersOf(responses, role);
    OthersOfSnoc(responses, role, x);
    if x.mpRole != role {
      assert OthersOf(rs, role) == others + [x];
      assert (others + [x])[..|others + [x]| - 1] == others;
    } else {
      assert OthersOf(rs, role) == others;
    }
  }

  /**
   * The vote and the confidence agree: a vote other than abstain comes with a
   * confidence above 0.3, and an abstain with one of at most 0.3. The
   * confidence lies in [0, 1).
   */
  lemma TurnAwareDecisionBounds(tanh: real -> real, role: string, responses: seq<Response>)
    requires TanhLike(tanh)
    ensures var d := TurnAwareDecision(tanh, role, responses);
      && 0.0 <= d.confidence < 1.0
      && (d.vote != Abstain <==> d.confidence > 0.3)
  {
    if WeightsOf(role) != [] {
      var x := TurnAwareTotal(role, responses) / ((|responses| + 1) as real);
      assert -1.0 < tanh(x) < 1.0;
    }
  }

  /** A role with no weights gets the low-confidence abstain, whatever the responses. */
  lemma TurnAwareUnknownRole(tanh: real -> real, role: string, responses: seq<Response>)
    requires role !in RoleWeightTable
    ensures TurnAwareDecision(tanh, role, responses) == Decision(Abstain, 0.02)
  {
  }

  // ---------------------------------------------------------------------
  // Static vote score (the second, live definition of calculate_vote_score)
  // ---------------------------------------------------------------------

  function SumWeights(weights: Weights): real
    decreases |weights|
  {
    if weights == [] then 0.0
    else SumWeights(weights[..|weights| - 1]) + weights[|weights| - 1].1
  }

  /**
   * The second definition of `calculate_vote_score`: the mean of the role's
   * weights against the thresholds 0.6 and 0.4; the debate history is not read.
   * A vote other than abstain comes with a confidence above 0.2.
   */
  function CalculateVoteScoreStatic(role: string, debateHistory: seq<Response>): (d: Decision)
    ensures role !in RoleWeightTable ==> d == Decision(Abstain, 0.02)
    ensures d.vote != Abstain <==> d.confidence > 0.2
  {
    var weights := WeightsOf(role);
    if weights == [] then NoOpinion
    else
      var score := SumWeights(weights) / (|weights| as real);
      var vote := if score > 0.6 then For else if score < 0.4 then Against else Abstain;
      Decision(vote, Abs(score - 0.5) * 2.0)
  }

  lemma SumWeightsOfFour(w: Weights)
    requires |w| == 4
    ensures SumWeights(w) == w[0].1 + w[1].1 + w[2].1 + w[3].1
  {
    assert w[..3][..2] == w[..2] && w[..2][..1] == w[..1] && w[..1][..0] == [];
    assert SumWeights(w) == SumWeights(w[..3]) + w[3].1;
    assert SumWeights(w[..3]) == SumWeights(w[..2]) + w[2].1;
    assert SumWeights(w[..2]) == SumWeights(w[..1]) + w[1].1;
    assert SumWeights(w[..1]) == w[0].1;
  }

  /** What the static rule decides for each role of the table. */
  lemma StaticOutcomes(debateHistory: seq<Response>)
    ensures CalculateVoteScoreStatic("corporate", debateHistory) == Decision(Abstain, 0.1)
    ensures CalculateVoteScoreStatic("academic", debateHistory) == Decision(For, 0.5)
    ensures CalculateVoteScoreStatic("government", debateHistory) == Decision(For, 0.3)
    ensures CalculateVoteScoreStatic("civil_rights", debateHistory) == Decision(For, 0.65)
  {
    SumWeightsOfFour(WeightsOf("corporate"));
    SumWeightsOfFour(WeightsOf("academic"));
    SumWeightsOfFour(WeightsOf("government"));
    SumWeightsOfFour(WeightsOf("civil_rights"));
  }

  /** The live rule never votes against, for any role and any history. */
  lemma StaticNeverAgainst(role: string, debateHistory: seq<Response>)
    ensures CalculateVoteScoreStatic(role, debateHistory).vote != Against
  {
    StaticOutcomes(debateHistory);
  }
}
