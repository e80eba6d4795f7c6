/** The risk-level lookups and section visibility of the risk-assessment card. */
module RiskAssessmentCard {
  import opened Wrappers
  import opened MatchTypes

  const Low: string := "low"
  const Medium: string := "medium"
  const High: string := "high"

  /** The class names and the badge icon of one risk level. */
  datatype RiskColors = RiskColors(bg: string, border: string, text: string, badge: string, icon: string)

  const LowColors: RiskColors :=
    RiskColors("bg-green-50", "border-green-200", "text-green-800", "bg-green-100 text-green-800 border-green-300", "🟢")
  const MediumColors: RiskColors :=
    RiskColors("bg-yellow-50", "border-yellow-200", "text-yellow-800", "bg-yellow-100 text-yellow-800 border-yellow-300", "🟡")
  const HighColors: RiskColors :=
    RiskColors("bg-red-50", "border-red-200", "text-red-800", "bg-red-100 text-red-800 border-red-300", "🔴")
  const OtherColors: RiskColors :=
    RiskColors("bg-gray-50", "border-gray-200", "text-gray-800", "bg-gray-100 text-gray-800 border-gray-300", "⚪")

  predicate Recognised(risk: string)
  {
    risk == Low || risk == Medium || risk == High
  }

  /** `getRiskLevelColor`: anything but the three levels is gray. */
  function RiskLevelColor(risk: string): (r: RiskColors)
    ensures r == OtherColors <==> !Recognised(risk)
    ensures risk == Low ==> r == LowColors
    ensures risk == Medium ==> r == MediumColors
    ensures risk == High ==> r == HighColors
    ensures risk == Low <==> r.icon == "🟢"
    ensures risk == Medium <==> r.icon == "🟡"
    ensures risk == High <==> r.icon == "🔴"
    ensures !Recognised(risk) <==> r.icon == "⚪"
  {
    if risk == Low then LowColors
    else if risk == Medium then MediumColors
    else if risk == High then HighColors
    else OtherColors
  }

  /** `getRiskLevelText`: an unrecognised level is shown as it is. */
  function RiskLevelText(risk: string): (r: string)
    ensures !Recognised(risk) ==> r == risk
    ensures risk == Low ==> r == "Niedriges Risiko"
    ensures risk == Medium ==> r == "Mittleres Risiko"
    ensures risk == High ==> r == "Hohes Risiko"
  {
    if risk == Low then "Niedriges Risiko"
    else if risk == Medium then "Mittleres Risiko"
    else if risk == High then "Hohes Risiko"
    else risk
  }

  /** The badge: icon and text, both taken from `overall_risk`. */
  function Badge(assessment: RiskAssessment): (r: (string, string))
  {
    (RiskLevelColor(assessment.overallRisk).icon, RiskLevelText(assessment.overallRisk))
  }

  /** The badge never mixes levels: for a recognised level the icon identifies
      the level, so two badges with that icon show the same text. */
  lemma BadgeConsistent(a: RiskAssessment, b: RiskAssessment)
    requires Recognised(a.overallRisk)
    ensures Badge(a).0 == Badge(b).0 <==> a.overallRisk == b.overallRisk
    ensures Badge(a).0 == Badge(b).0 ==> Badge(a).1 == Badge(b).1
  {
  }

  /** The parts of the collapsible body that are rendered. */
  datatype Sections = Sections(factors: bool, mitigation: bool, summary: bool)

  /** What the card renders: nothing without an assessment; the header (colours
      and badge) always, and the body only while expanded. */
  function Render(assessment: Option<RiskAssessment>, isExpanded: bool): (r: Option<(RiskColors, Sections)>)
    ensures r.None? <==> assessment.None?
    ensures r.Some? ==> r.value.0 == RiskLevelColor(assessment.value.overallRisk)
    ensures r.Some? ==> (r.value.1.factors <==> isExpanded && assessment.value.factors != [])
    ensures r.Some? ==> (r.value.1.mitigation <==> isExpanded && assessment.value.mitigationStrategies != [])
    ensures r.Some? ==> (r.value.1.summary <==> isExpanded)
  {
    match assessment
    case None => None
    case Some(a) =>
      Some((RiskLevelColor(a.overallRisk),
            Sections(isExpanded && a.factors != [], isExpanded && a.mitigationStrategies != [], isExpanded)))
  }
}
