/** The score banding and section visibility of the development-potential
    card. */
module DevelopmentPotentialCard {
  import opened Wrappers
  import opened MatchTypes

  /** The band limits, lowest first: a score is in band `n` when it reaches
      exactly `n` of them. */
  const Thresholds: seq<real> := [40.0, 60.0, 80.0]
  /** Bar colours and labels, indexed by band. */
  const Colors: seq<string> := ["bg-red-600", "bg-yellow-600", "bg-blue-600", "bg-green-600"]
  const Labels: seq<string> := ["Niedrig", "Mittel", "Hoch", "Sehr Hoch"]

  /** `getScoreColor`. */
  function ScoreColor(score: real): (r: string)
    ensures r in Colors
  {
    if score >= 80.0 then "bg-green-600"
    else if score >= 60.0 then "bg-blue-600"
    else if score >= 40.0 then "bg-yellow-600"
    else "bg-red-600"
  }

  /** `getScoreLabel`. */
  function ScoreLabel(score: real): (r: string)
    ensures r in Labels
  {
    if score >= 80.0 then "Sehr Hoch"
    else if score >= 60.0 then "Hoch"
    else if score >= 40.0 then "Mittel"
    else "Niedrig"
  }

  /** How many of the limits `ts` the score reaches. */
  function Reached(ts: seq<real>, score: real): (n: nat)
    ensures n <= |ts|
  {
    if ts == [] then 0 else (if ts[0] <= score then 1 else 0) + Reached(ts[1..], score)
  }

  /** The reference banding: the number of limits reached. */
  function Band(score: real): (b: nat)
    ensures b < 4
  {
    Reached(Thresholds, score)
  }

  /** Both lookups pick the entry of the score's band. */
  lemma ColorAndLabelByBand(score: real)
    ensures ScoreColor(score) == Colors[Band(score)]
    ensures ScoreLabel(score) == Labels[Band(score)]
  {
    assert Thresholds[1..] == [60.0, 80.0] && Thresholds[1..][1..] == [80.0];
    assert Reached([80.0], score) == (if score >= 80.0 then 1 else 0) by {
      assert [80.0][1..] == [];
    }
    assert Reached([60.0, 80.0], score) == (if score >= 60.0 then 1 else 0) + Reached([80.0], score);
    assert Band(score) == (if score >= 40.0 then 1 else 0) + Reached([60.0, 80.0], score);
    assert Band(score) == (if score >= 80.0 then 3 else if score >= 60.0 then 2 else if score >= 40.0 then 1 else 0);
  }

  lemma {:induction false} ReachedMonotone(ts: seq<real>, a: real, b: real)
    requires a <= b
    ensures Reached(ts, a) <= Reached(ts, b)
  {
    if ts != [] {
      ReachedMonotone(ts[1..], a, b);
    }
  }

  /** A higher score never falls into a lower band, for the colour and for the
      label. */
  lemma BandsMonotone(a: real, b: real)
    requires a <= b
    ensures Band(a) <= Band(b)
    ensures ScoreColor(a) == Colors[Band(a)] && ScoreColor(b) == Colors[Band(b)]
    ensures ScoreLabel(a) == Labels[Band(a)] && ScoreLabel(b) == Labels[Band(b)]
  {
    ReachedMonotone(Thresholds, a, b);
    ColorAndLabelByBand(a);
    ColorAndLabelByBand(b);
  }

  /** Colour and label always agree: two scores get the same colour exactly
      when they get the same label. */
  lemma ColorLabelAgree(a: real, b: real)
    ensures ScoreColor(a) == ScoreColor(b) <==> ScoreLabel(a) == ScoreLabel(b)
    ensures ScoreColor(a) == ScoreColor(b) <==> Band(a) == Band(b)
  {
    ColorAndLabelByBand(a);
    ColorAndLabelByBand(b);
  }

  /** The optional parts of the card: each flag says whether that part is
      rendered. The score bar is always there; the note only while expanded. */
  datatype Sections = Sections(timeline: bool, areas: bool, recommendations: bool, note: bool)

  /** The card starts expanded (`useState(true)`). */
  const InitiallyExpanded: bool := true

  /** What the card renders: nothing without a development potential, and the
      collapsible part only while expanded. */
  function Render(potential: Option<DevelopmentPotential>, isExpanded: bool): (r: Option<Sections>)
    ensures r.None? <==> potential.None?
    ensures r.Some? ==> (r.value.timeline <==> isExpanded && potential.value.timeline != [])
    ensures r.Some? ==> (r.value.areas <==> isExpanded && potential.value.areas != [])
    ensures r.Some? ==> (r.value.recommendations <==> isExpanded && potential.value.recommendations != [])
    ensures r.Some? ==> (r.value.note <==> isExpanded)
  {
    match potential
    case None => None
    case Some(p) =>
      Some(Sections(
        isExpanded && p.timeline != [],
        isExpanded && p.areas != [],
        isExpanded && p.recommendations != [],
        isExpanded))
  }

  /** Collapsing hides every optional section; the card starts expanded, so
      its closing note shows before any click. */
  lemma CollapsedShowsNoSection(potential: Option<DevelopmentPotential>)
    requires potential.Some?
    ensures var r := Render(potential, false).value;
      !r.timeline && !r.areas && !r.recommendations && !r.note
    ensures Render(potential, InitiallyExpanded).value.note
  {
  }
}
