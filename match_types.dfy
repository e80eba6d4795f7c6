/** The result records the match analysis produces and the result cards render
    (`MatchResult` and its optional sections). */
module MatchTypes {
  import opened Wrappers
  import opened Json

  /** One requirement row of the comparison table. `matchLevel` is meant to be
      "full", "partial" or "missing", but nothing enforces it, so any text can
      reach the table. */
  datatype ComparisonItem = ComparisonItem(
    requirement: string,
    applicantMatch: string,
    details: string,
    matchLevel: string,
    confidence: real)

  /** `overallRisk` is meant to be "low", "medium" or "high"; other texts can
      reach the card. */
  datatype RiskAssessment = RiskAssessment(
    overallRisk: string,
    factors: seq<string>,
    mitigationStrategies: seq<string>)

  datatype DevelopmentPotential = DevelopmentPotential(
    score: real,
    areas: seq<string>,
    timeline: string,
    recommendations: seq<string>)

  /** The three lists hold whatever values the decoded arrays held: the
      validator checks that they are arrays, not what their items are. */
  datatype MatchResult = MatchResult(
    overallScore: real,
    strengths: seq<Json>,
    gaps: seq<Json>,
    recommendations: seq<Json>,
    detailedAnalysis: string,
    comparison: Option<seq<ComparisonItem>>,
    riskAssessment: Option<RiskAssessment>,
    developmentPotential: Option<DevelopmentPotential>)
}
