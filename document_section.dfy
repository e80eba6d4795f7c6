/** The document summary of the document section: the conversion of the
    server's summary records into `BackendDocument`s, and the summary memo
    that combines local and database documents into counts, a joined text and
    per-document statistics. */
module DocumentSection {
  import opened Wrappers
  import opened Text

  const Separator: string := "\n\n"
  const Unnamed: string := "Unnamed"
  const UrlType: string := "url"

  datatype Side = Employer | Applicant

  /** A document added in this session. */
  datatype LocalDocument = LocalDocument(id: string, name: string, docType: string, content: string, side: Side)

  /** One entry of the server's document summary; `createdAt` may be `null`. */
  datatype SummaryEntry = SummaryEntry(
    id: string, filename: string, docType: string,
    wordCount: nat, charCount: nat, content: string, createdAt: Option<string>)

  /** The stored document shape; `None` stands for an absent optional field.
      The metadata record is always empty here and is not modelled. */
  datatype BackendDocument = BackendDocument(
    id: string, userId: string, docType: string, filename: Option<string>,
    url: Option<string>, content: string, createdAt: string, updatedAt: string)

  /** The `summary.documents.map(...)` in `loadBackendDocuments`. */
  function FromSummaryEntry(d: SummaryEntry): (b: BackendDocument)
    ensures b.id == d.id && b.docType == d.docType && b.content == d.content
    ensures b.userId == [] && b.filename == Some(d.filename)
    ensures b.url.Some? <==> d.docType == UrlType
    ensures b.url.Some? ==> b.url.value == d.filename
    ensures b.createdAt == b.updatedAt
    ensures b.createdAt == (if d.createdAt.Some? then d.createdAt.value else [])
  {
    var created := if d.createdAt.Some? then d.createdAt.value else [];
    BackendDocument(
      d.id, [], d.docType, Some(d.filename),
      if d.docType == UrlType then Some(d.filename) else None,
      d.content, created, created)
  }

  function FromSummary(entries: seq<SummaryEntry>): (docs: seq<BackendDocument>)
    ensures |docs| == |entries|
    ensures forall k :: 0 <= k < |entries| ==> docs[k] == FromSummaryEntry(entries[k])
  {
    seq(|entries|, k requires 0 <= k < |entries| => FromSummaryEntry(entries[k]))
  }

  datatype Source = Local | Database

  /** An element of `allDocs`. */
  datatype Entry = Entry(name: string, content: string, docType: string, source: Source)

  /** `d.filename || 'Unnamed'`: a missing or empty file name. */
  function DisplayFilename(filename: Option<string>): (r: string)
    ensures r != []
    ensures filename.Some? && filename.value != [] ==> r == filename.value
    ensures filename.None? || filename.value == [] ==> r == Unnamed
  {
    if filename.Some? && filename.value != [] then filename.value else Unnamed
  }

  /** `allDocs`: the local documents, then the database documents. */
  function AllDocs(docs: seq<LocalDocument>, backendDocs: seq<BackendDocument>): (all: seq<Entry>)
    ensures |all| == |docs| + |backendDocs|
    ensures forall k :: 0 <= k < |docs| ==>
      all[k] == Entry(docs[k].name, docs[k].content, docs[k].docType, Local)
    ensures forall k :: 0 <= k < |backendDocs| ==>
      all[|docs| + k] == Entry(DisplayFilename(backendDocs[k].filename), backendDocs[k].content, backendDocs[k].docType, Database)
  {
    seq(|docs|, k requires 0 <= k < |docs| => Entry(docs[k].name, docs[k].content, docs[k].docType, Local))
    + seq(|backendDocs|, k requires 0 <= k < |backendDocs| =>
        Entry(DisplayFilename(backendDocs[k].filename), backendDocs[k].content, backendDocs[k].docType, Database))
  }

  function Contents(all: seq<Entry>): (cs: seq<string>)
    ensures |cs| == |all| && forall k :: 0 <= k < |all| ==> cs[k] == all[k].content
  {
    seq(|all|, k requires 0 <= k < |all| => all[k].content)
  }

  function TotalLength(parts: seq<string>): nat
  {
    if parts == [] then 0 else |parts[0]| + TotalLength(parts[1..])
  }

  /** `parts.join(sep)`. */
  function Join(parts: seq<string>, sep: string): string
  {
    if parts == [] then []
    else if |parts| == 1 then parts[0]
    else parts[0] + sep + Join(parts[1..], sep)
  }

  /** The joined text is as long as the parts together plus one separator
      between each two of them. */
  lemma {:induction false} JoinLength(parts: seq<string>, sep: string)
    requires parts != []
    ensures |Join(parts, sep)| == TotalLength(parts) + |sep| * (|parts| - 1)
  {
    if |parts| > 1 {
      JoinLength(parts[1..], sep);
    }
  }

  // ---------------------------------------------------------------------
  // `text.split(/\s+/)`

  /** The first whitespace position at or after `k`, or `|s|`. */
  function NextSpace(s: string, k: nat): (r: nat)
    requires k <= |s|
    ensures k <= r <= |s|
    ensures forall j :: k <= j < r ==> !IsSpace(s[j])
    ensures r < |s| ==> IsSpace(s[r])
    decreases |s| - k
  {
    if k == |s| || IsSpace(s[k]) then k else NextSpace(s, k + 1)
  }

  /** The end of the whitespace run starting at `k`. */
  function SkipSpaces(s: string, k: nat): (r: nat)
    requires k <= |s|
    ensures k <= r <= |s|
    ensures forall j :: k <= j < r ==> IsSpace(s[j])
    ensures r < |s| ==> !IsSpace(s[r])
    decreases |s| - k
  {
    if k == |s| || !IsSpace(s[k]) then k else SkipSpaces(s, k + 1)
  }

  /** The pieces of `s[k..]` between maximal whitespace runs; a leading or
      trailing run gives an empty piece, as JavaScript's `split` does. */
  function SplitFrom(s: string, k: nat): (pieces: seq<string>)
    requires k <= |s|
    ensures |pieces| >= 1
    ensures forall m, j :: 0 <= m < |pieces| && 0 <= j < |pieces[m]| ==> !IsSpace(pieces[m][j])
    decreases |s| - k
  {
    var i := NextSpace(s, k);
    if i == |s| then [s[k..]]
    else [s[k..i]] + SplitFrom(s, SkipSpaces(s, i))
  }

  /** `s.split(/\s+/)`. */
  function Split(s: string): seq<string>
  {
    SplitFrom(s, 0)
  }

  /** `s.split(/\s+/).length`. */
  function WordCount(s: string): nat
  {
    |Split(s)|
  }

  /** `k` begins a maximal whitespace run. */
  predicate RunStart(s: string, k: nat)
    requires k < |s|
  {
    IsSpace(s[k]) && (k == 0 || !IsSpace(s[k - 1]))
  }

  /** The number of maximal whitespace runs that begin at or after `k`. */
  function RunsFrom(s: string, k: nat): nat
    requires k <= |s|
    decreases |s| - k
  {
    if k == |s| then 0 else (if RunStart(s, k) then 1 else 0) + RunsFrom(s, k + 1)
  }

  lemma {:induction false} NoRunStarts(s: string, a: nat, b: nat)
    requires a <= b <= |s|
    requires forall j :: a <= j < b ==> !RunStart(s, j)
    ensures RunsFrom(s, a) == RunsFrom(s, b)
    decreases b - a
  {
    if a < b {
      NoRunStarts(s, a + 1, b);
    }
  }

  lemma {:induction false} SplitCount(s: string, k: nat)
    requires k <= |s|
    requires k == 0 || k == |s| || !IsSpace(s[k - 1]) || !IsSpace(s[k])
    ensures |SplitFrom(s, k)| == 1 + RunsFrom(s, k)
    decreases |s| - k
  {
    var i := NextSpace(s, k);
    assert forall m :: k <= m < i ==> !RunStart(s, m);
    NoRunStarts(s, k, i);
    if i < |s| {
      var j := SkipSpaces(s, i);
      assert RunStart(s, i);
      assert RunsFrom(s, i) == 1 + RunsFrom(s, i + 1);
      assert forall m :: i + 1 <= m < j ==> !RunStart(s, m);
      NoRunStarts(s, i + 1, j);
      SplitCount(s, j);
      assert SplitFrom(s, k) == [s[k..i]] + SplitFrom(s, j);
    }
  }

  /** The word count is one more than the number of whitespace runs, so it is
      at least one, even for the empty text. */
  lemma WordCountIsRuns(s: string)
    ensures WordCount(s) == 1 + RunsFrom(s, 0)
    ensures WordCount(s) >= 1
  {
    SplitCount(s, 0);
  }

  // ---------------------------------------------------------------------
  // The summary memo

  datatype DocStats = DocStats(name: string, docType: string, source: Source, wordCount: nat, charCount: nat, content: string)

  datatype Summary = Summary(totalDocs: nat, totalWords: nat, totalChars: nat, fullContent: string, documents: seq<DocStats>)

  function Stats(e: Entry): (d: DocStats)
    ensures d.name == e.name && d.docType == e.docType && d.source == e.source && d.content == e.content
    ensures d.charCount == |e.content| && d.wordCount == WordCount(e.content)
  {
    DocStats(e.name, e.docType, e.source, WordCount(e.content), |e.content|, e.content)
  }

  /** The `summary` memo: `null` when there is no document at all. */
  function MakeSummary(docs: seq<LocalDocument>, backendDocs: seq<BackendDocument>): (r: Option<Summary>)
    ensures r.None? <==> docs == [] && backendDocs == []
    ensures r.Some? ==> r.value.totalDocs == |docs| + |backendDocs| == |r.value.documents|
    ensures r.Some? ==> r.value.fullContent == Join(Contents(AllDocs(docs, backendDocs)), Separator)
    ensures r.Some? ==> r.value.totalChars == |r.value.fullContent|
    ensures r.Some? ==> r.value.totalWords == WordCount(r.value.fullContent)
    ensures r.Some? ==> forall k :: 0 <= k < |r.value.documents| ==>
      r.value.documents[k] == Stats(AllDocs(docs, backendDocs)[k])
  {
    var all := AllDocs(docs, backendDocs);
    if all == [] then None
    else
      var fullContent := Join(Contents(all), Separator);
      Some(Summary(
        |all|,
        WordCount(fullContent),
        |fullContent|,
        fullContent,
        seq(|all|, k requires 0 <= k < |all| => Stats(all[k]))))
  }

  /** The totals of a summary: the character total is the sum of the content
      lengths plus two per separator, every word count is at least one, local
      documents come first and unnamed database documents are called
      "Unnamed". */
  lemma SummaryTotals(docs: seq<LocalDocument>, backendDocs: seq<BackendDocument>)
    requires docs != [] || backendDocs != []
    ensures var s := MakeSummary(docs, backendDocs).value;
      && s.totalChars == TotalLength(Contents(AllDocs(docs, backendDocs))) + 2 * (s.totalDocs - 1)
      && s.totalWords >= 1
      && (forall k :: 0 <= k < |s.documents| ==> s.documents[k].wordCount >= 1)
      && (forall k :: 0 <= k < |docs| ==> s.documents[k].source == Local && s.documents[k].name == docs[k].name)
      && (forall k :: |docs| <= k < |s.documents| ==> s.documents[k].source == Database)
      && (forall k :: 0 <= k < |backendDocs| && (backendDocs[k].filename.None? || backendDocs[k].filename == Some([])) ==>
            s.documents[|docs| + k].name == Unnamed)
  {
    var s := MakeSummary(docs, backendDocs).value;
    var all := AllDocs(docs, backendDocs);
    JoinLength(Contents(all), Separator);
    WordCountIsRuns(s.fullContent);
    forall k | 0 <= k < |s.documents| ensures s.documents[k].wordCount >= 1 {
      WordCountIsRuns(all[k].content);
    }
  }
}
