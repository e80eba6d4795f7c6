/** The lookups and footer tallies of the comparison table. */
module ComparisonTable {
  import opened Wrappers
  import opened MatchTypes

  const Full: string := "full"
  const Partial: string := "partial"
  const Missing: string := "missing"

  const FullClasses: string := "bg-green-100 text-green-800 border-green-300"
  const PartialClasses: string := "bg-yellow-100 text-yellow-800 border-yellow-300"
  const MissingClasses: string := "bg-red-100 text-red-800 border-red-300"
  const OtherClasses: string := "bg-gray-100 text-gray-800 border-gray-300"

  predicate Recognised(level: string)
  {
    level == Full || level == Partial || level == Missing
  }

  /** `getMatchLevelColor`. */
  function LevelColor(level: string): (r: string)
    ensures r == OtherClasses <==> !Recognised(level)
    ensures level == Full <==> r == FullClasses
    ensures level == Partial <==> r == PartialClasses
    ensures level == Missing <==> r == MissingClasses
  {
    if level == Full then FullClasses
    else if level == Partial then PartialClasses
    else if level == Missing then MissingClasses
    else OtherClasses
  }

  /** `getMatchLevelIcon`. */
  function LevelIcon(level: string): (r: string)
    ensures r == "?" <==> !Recognised(level)
    ensures level == Full <==> r == "✓"
    ensures level == Partial <==> r == "~"
    ensures level == Missing <==> r == "✗"
  {
    if level == Full then "✓"
    else if level == Partial then "~"
    else if level == Missing then "✗"
    else "?"
  }

  /** `getMatchLevelText`: an unrecognised level is shown as it is. */
  function LevelText(level: string): (r: string)
    ensures !Recognised(level) ==> r == level
    ensures level == Full ==> r == "Vollständig"
    ensures level == Partial ==> r == "Teilweise"
    ensures level == Missing ==> r == "Fehlend"
  {
    if level == Full then "Vollständig"
    else if level == Partial then "Teilweise"
    else if level == Missing then "Fehlend"
    else level
  }

  /** The details cell: `item.details || '-'`. */
  function DetailsCell(details: string): (r: string)
    ensures r != []
    ensures details != [] ==> r == details
    ensures details == [] ==> r == "-"
  {
    if details != [] then details else "-"
  }

  /** The table is rendered only for a present, non-empty comparison. */
  predicate Visible(comparison: Option<seq<ComparisonItem>>)
  {
    comparison.Some? && comparison.value != []
  }

  /** `comparison.filter(c => c.match_level === level).length`. */
  function CountLevel(items: seq<ComparisonItem>, level: string): (n: nat)
    ensures n <= |items|
  {
    if items == [] then 0
    else (if items[0].matchLevel == level then 1 else 0) + CountLevel(items[1..], level)
  }

  /** The three footer tallies never exceed the number of rows, and they add
      up to it exactly when every row carries a recognised level. */
  lemma {:induction false} Tallies(items: seq<ComparisonItem>)
    ensures CountLevel(items, Full) + CountLevel(items, Partial) + CountLevel(items, Missing) <= |items|
    ensures CountLevel(items, Full) + CountLevel(items, Partial) + CountLevel(items, Missing) == |items|
      <==> forall k :: 0 <= k < |items| ==> Recognised(items[k].matchLevel)
  {
    if items != [] {
      Tallies(items[1..]);
      assert forall k :: 1 <= k < |items| ==> items[k] == items[1..][k - 1];
    }
  }

  /** The table with its legend: nothing for a missing or empty comparison,
      otherwise the full, partial and missing tallies, which account for
      every row exactly when every level is recognised. */
  function Legend(comparison: Option<seq<ComparisonItem>>): (r: Option<(nat, nat, nat)>)
    ensures r.None? <==> !Visible(comparison)
    ensures r.Some? ==> r.value.0 + r.value.1 + r.value.2 <= |comparison.value|
    ensures r.Some? ==> (r.value.0 + r.value.1 + r.value.2 == |comparison.value|
      <==> forall k :: 0 <= k < |comparison.value| ==> Recognised(comparison.value[k].matchLevel))
  {
    if !Visible(comparison) then None
    else
      var items := comparison.value;
      Tallies(items);
      Some((CountLevel(items, Full), CountLevel(items, Partial), CountLevel(items, Missing)))
  }

  /** A row whose level is unrecognised is counted in none of the tallies. */
  lemma {:induction false} UnrecognisedUncounted(items: seq<ComparisonItem>, k: nat)
    requires k < |items| && !Recognised(items[k].matchLevel)
    ensures CountLevel(items, Full) + CountLevel(items, Partial) + CountLevel(items, Missing) < |items|
  {
    Tallies(items);
  }
}
