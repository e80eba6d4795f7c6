/** The JSON utilities: `parseJsonResponse` (object-or-array variant),
    `tryParseJson`, `containsValidJson` and the scanner `extractAllJson`. */
module JsonParser {
  import opened Wrappers
  import opened Json
  import opened Text

  const NoJsonMessage: string := "Kein JSON-Objekt oder Array in der Antwort gefunden"
  const InvalidJsonMessage: string := "Ungültiges JSON-Format in der Antwort"

  const Openers: set<char> := {'{', '['}
  const Closers: set<char> := {'}', ']'}

  /** `cleaned.match(/[\{\[][\s\S]*[\}\]]/)`: from the first `{` or `[` to
      the last `}` or `]` after it; the two need not be of the same kind. */
  function Candidate(cleaned: string): (r: Option<string>)
    ensures r.Some? ==> |r.value| >= 2 && r.value[0] in Openers && r.value[|r.value| - 1] in Closers
    ensures r.None? <==> forall i, j :: 0 <= i < j < |cleaned| ==> !(cleaned[i] in Openers && cleaned[j] in Closers)
  {
    match GreedySpan(cleaned, Openers, Closers)
    case None =>
      assert forall i, j :: 0 <= i < j < |cleaned| ==> !(cleaned[i] in Openers && cleaned[j] in Closers) by {
        forall i, j | 0 <= i < j < |cleaned| && cleaned[i] in Openers && cleaned[j] in Closers
          ensures false
        {
          assert SpanMatch(cleaned, Openers, Closers, i, j + 1);
        }
      }
      None
    case Some(span) => Some(cleaned[span.0..span.1])
  }

  /** The candidate is exactly the text from the first `{` or `[` of the
      cleaned reply to its last `}` or `]`. */
  lemma CandidateBounds(cleaned: string)
    requires Candidate(cleaned).Some?
    ensures exists i, e :: (
      && 0 <= i < e <= |cleaned|
      && Candidate(cleaned).value == cleaned[i..e]
      && (forall k :: 0 <= k < i ==> cleaned[k] !in Openers)
      && (forall k :: e <= k < |cleaned| ==> cleaned[k] !in Closers))
  {
    var span := GreedySpan(cleaned, Openers, Closers).value;
    var i, e := span.0, span.1;
    assert forall k :: 0 <= k < i ==> cleaned[k] !in Openers;
    assert forall k :: e <= k < |cleaned| ==> cleaned[k] !in Closers;
  }

  /** A text that starts with `{` or `[` and ends with `}` or `]`. */
  predicate ContainerText(t: string)
  {
    |t| >= 2 && t[0] in Openers && t[|t| - 1] in Closers
  }

  lemma ContainerHasNoBacktickEnds(t: string)
    requires ContainerText(t)
    ensures NoBacktickEnds(t)
  {
    assert '`' !in Openers && '`' !in Closers;
  }

  /** A text that starts with an opener and ends with a closer, of either
      kind, is its own candidate. */
  lemma WholeTextIsCandidate(t: string)
    requires ContainerText(t)
    ensures Candidate(t) == Some(t)
  {
    assert SpanMatch(t, Openers, Closers, 0, |t|);
    assert t[0..|t|] == t;
  }

  /** `parseJsonResponse` of the JSON utilities. */
  function ParseJsonResponse(response: string, decode: Decoder): (r: Result<Json, string>)
    ensures r.Failure? ==> r.error == NoJsonMessage || r.error == InvalidJsonMessage
    ensures r == Failure(NoJsonMessage) <==> Candidate(StripCodeFences(response)).None?
    ensures r.Success? <==> Candidate(StripCodeFences(response)).Some? && decode(Candidate(StripCodeFences(response)).value).Some?
    ensures r.Success? ==> decode(Candidate(StripCodeFences(response)).value) == Some(r.value)
  {
    match Candidate(StripCodeFences(response))
    case None => Failure(NoJsonMessage)
    case Some(candidate) =>
      match decode(candidate)
      case None => Failure(InvalidJsonMessage)
      case Some(v) => Success(v)
  }

  /** A reply that, trimmed, is one object or array text is decoded whole. */
  lemma WholeReply(response: string, decode: Decoder, v: Json)
    requires ContainerText(Trim(response))
    requires decode(Trim(response)) == Some(v)
    ensures ParseJsonResponse(response, decode) == Success(v)
  {
    ContainerHasNoBacktickEnds(Trim(response));
    PlainReply(response);
    ParseOfWhole(response, decode, Trim(response), v);
  }

  lemma ParseOfWhole(response: string, decode: Decoder, cleaned: string, v: Json)
    requires StripCodeFences(response) == cleaned && ContainerText(cleaned)
    requires decode(cleaned) == Some(v)
    ensures ParseJsonResponse(response, decode) == Success(v)
  {
    WholeTextIsCandidate(cleaned);
  }

  lemma CandidateDecodesToContainer(cleaned: string, decode: Decoder)
    requires LeadingCharAxiom(decode)
    requires Candidate(cleaned).Some? && decode(Candidate(cleaned).value).Some?
    ensures decode(Candidate(cleaned).value).value.JObject? || decode(Candidate(cleaned).value).value.JArray?
  {
  }

  /** Everything `parseJsonResponse` returns is an object or an array. */
  lemma ParsedIsObjectOrArray(response: string, decode: Decoder)
    requires LeadingCharAxiom(decode)
    requires ParseJsonResponse(response, decode).Success?
    ensures ParseJsonResponse(response, decode).value.JObject? || ParseJsonResponse(response, decode).value.JArray?
  {
    var cleaned := StripCodeFences(response);
    CandidateDecodesToContainer(cleaned, decode);
  }

  /** `tryParseJson`: the parsed value, or `null` when `parseJsonResponse`
      throws. */
  function TryParseJson(response: string, decode: Decoder): (r: Json)
    ensures ParseJsonResponse(response, decode).Success? ==> r == ParseJsonResponse(response, decode).value
    ensures ParseJsonResponse(response, decode).Failure? ==> r == JNull
  {
    match ParseJsonResponse(response, decode)
    case Success(v) => v
    case Failure(_) => JNull
  }

  /** `containsValidJson`: whether `parseJsonResponse` returns normally. */
  function ContainsValidJson(str: string, decode: Decoder): (r: bool)
    ensures r <==> ParseJsonResponse(str, decode).Success?
  {
    ParseJsonResponse(str, decode).Success?
  }

  /** `containsValidJson(s)` holds exactly when `tryParseJson(s)` is not
      `null`: the decoded candidate is an object or an array, never `null`. */
  lemma ContainsValidIffTryNotNull(str: string, decode: Decoder)
    requires LeadingCharAxiom(decode)
    ensures ContainsValidJson(str, decode) <==> TryParseJson(str, decode) != JNull
  {
    if ParseJsonResponse(str, decode).Success? {
      ParsedIsObjectOrArray(str, decode);
    }
  }

  // ---------------------------------------------------------------------
  // extractAllJson: the global search with /\{[^{}]*(?:\{[^{}]*\}[^{}]*)*\}/g

  /** The nesting depth after reading `t`: opened `{` minus closed `}`. */
  function Depth(t: string): int
  {
    if t == [] then 0
    else Depth(t[..|t| - 1]) + (if t[|t| - 1] == '{' then 1 else if t[|t| - 1] == '}' then -1 else 0)
  }

  /** The language of the pattern: a `{`, then text in which braces nest at
      most one level deeper, then the `}` that brings the depth back to zero. */
  ghost predicate ShallowObject(t: string)
  {
    && |t| >= 2 && t[0] == '{'
    && (forall n :: 1 <= n < |t| ==> 1 <= Depth(t[..n]) <= 2)
    && Depth(t) == 0
  }

  /** Continues a match at position `k` with `depth` braces open: `}` at
      depth 1 ends it, a third level of `{` or the end of the text fails it. */
  function ScanFrom(s: string, k: nat, depth: int): (r: Option<nat>)
    requires k <= |s|
    ensures r.Some? ==> k < r.value <= |s| && s[r.value - 1] == '}'
    decreases |s| - k
  {
    if k == |s| then None
    else if s[k] == '}' then (if depth == 1 then Some(k + 1) else ScanFrom(s, k + 1, 1))
    else if s[k] == '{' then (if depth == 1 then ScanFrom(s, k + 1, 2) else None)
    else ScanFrom(s, k + 1, depth)
  }

  /** End (exclusive) of the match that starts at `i`, if one does. */
  function MatchEnd(s: string, i: nat): (r: Option<nat>)
    requires i < |s|
    ensures r.Some? ==> i + 1 < r.value <= |s|
  {
    if s[i] == '{' then ScanFrom(s, i + 1, 1) else None
  }

  lemma DepthStep(s: string, i: nat, k: nat)
    requires i <= k < |s|
    ensures Depth(s[i..k + 1]) == Depth(s[i..k]) +
      (if s[k] == '{' then 1 else if s[k] == '}' then -1 else 0)
  {
    assert s[i..k + 1][..k - i] == s[i..k];
  }

  lemma {:induction false} ScanSound(s: string, i: nat, k: nat, depth: int)
    requires i < k <= |s| && s[i] == '{'
    requires depth == Depth(s[i..k]) && 1 <= depth <= 2
    requires forall n :: i < n <= k ==> 1 <= Depth(s[i..n]) <= 2
    requires ScanFrom(s, k, depth).Some?
    ensures ShallowObject(s[i..ScanFrom(s, k, depth).value])
    decreases |s| - k
  {
    DepthStep(s, i, k);
    var e := ScanFrom(s, k, depth).value;
    if s[k] == '}' && depth == 1 {
      var t := s[i..k + 1];
      forall n | 1 <= n < |t| ensures 1 <= Depth(t[..n]) <= 2 {
        assert t[..n] == s[i..i + n];
        assert i < i + n <= k;
      }
    } else {
      var d := if s[k] == '}' then 1 else if s[k] == '{' then 2 else depth;
      ScanSound(s, i, k + 1, d);
    }
  }

  lemma {:induction false} ScanComplete(s: string, i: nat, k: nat, e: nat)
    requires i < k < e <= |s|
    requires ShallowObject(s[i..e])
    ensures ScanFrom(s, k, Depth(s[i..k])) == Some(e)
    decreases e - k
  {
    var t := s[i..e];
    assert t[..k - i] == s[i..k];
    assert t[..k + 1 - i] == s[i..k + 1];
    DepthStep(s, i, k);
    if k + 1 == e {
      assert s[i..k + 1] == t;
    } else {
      ScanComplete(s, i, k + 1, e);
    }
  }

  /** `MatchEnd` is exactly the pattern: the match starting at `i` ends at
      `e` if and only if `s[i..e]` is a shallow object. */
  lemma MatchEndIsPattern(s: string, i: nat, e: nat)
    requires i < e <= |s|
    ensures MatchEnd(s, i) == Some(e) <==> ShallowObject(s[i..e])
  {
    assert s[i..i + 1][..0] == [];
    assert Depth(s[i..i + 1]) == Depth([]) + (if s[i] == '{' then 1 else if s[i] == '}' then -1 else 0);
    if MatchEnd(s, i) == Some(e) {
      ScanSound(s, i, i + 1, 1);
    }
    if ShallowObject(s[i..e]) {
      assert s[i..e][0] == s[i];
      assert s[i..e][..1] == s[i..i + 1];
      ScanComplete(s, i, i + 1, e);
    }
  }

  /** The matches of the global search from position `p`: a match at `p`
      resumes the search at its end, a failed start one character later. */
  function Spans(s: string, p: nat): (sp: seq<(nat, nat)>)
    requires p <= |s|
    ensures forall k :: 0 <= k < |sp| ==> p <= sp[k].0 < sp[k].1 <= |s| && MatchEnd(s, sp[k].0) == Some(sp[k].1)
    ensures forall k :: 0 <= k < |sp| - 1 ==> sp[k].1 <= sp[k + 1].0
    decreases |s| - p
  {
    if p == |s| then []
    else match MatchEnd(s, p)
      case Some(e) => [(p, e)] + Spans(s, e)
      case None => Spans(s, p + 1)
  }

  ghost predicate Covered(sp: seq<(nat, nat)>, q: nat)
  {
    exists k :: 0 <= k < |sp| && sp[k].0 <= q < sp[k].1
  }

  /** No match is missed: every position from which the pattern matches lies
      inside one of the reported matches (it either starts one or is inside an
      earlier one, which the global search skips). */
  lemma {:induction false} SpansCover(s: string, p: nat, q: nat)
    requires p <= q < |s| && MatchEnd(s, q).Some?
    ensures Covered(Spans(s, p), q)
    decreases |s| - p
  {
    var sp := Spans(s, p);
    match MatchEnd(s, p)
    case Some(e) =>
      assert sp[0] == (p, e);
      if q >= e {
        SpansCover(s, e, q);
        var rest := Spans(s, e);
        var k :| 0 <= k < |rest| && rest[k].0 <= q < rest[k].1;
        assert sp[k + 1] == rest[k];
      }
    case None =>
      SpansCover(s, p + 1, q);
  }

  /** The texts of the spans. */
  function Slices(s: string, sp: seq<(nat, nat)>): (ms: seq<string>)
    requires forall k :: 0 <= k < |sp| ==> sp[k].0 <= sp[k].1 <= |s|
    ensures |ms| == |sp|
    ensures forall k :: 0 <= k < |sp| ==> ms[k] == s[sp[k].0..sp[k].1]
  {
    seq(|sp|, k requires 0 <= k < |sp| => s[sp[k].0..sp[k].1])
  }

  /** `str.match(regex)` with the global flag, from position `p`, `[]`
      standing for `null`: the texts of the spans. */
  function MatchesFrom(s: string, p: nat): (ms: seq<string>)
    requires p <= |s|
    decreases |s| - p
  {
    if p == |s| then []
    else match MatchEnd(s, p)
      case Some(e) => [s[p..e]] + MatchesFrom(s, e)
      case None => MatchesFrom(s, p + 1)
  }

  function AllMatches(s: string): seq<string>
  {
    MatchesFrom(s, 0)
  }

  /** The matched texts are the texts of the spans. */
  lemma {:induction false} MatchesAreSlices(s: string, p: nat)
    requires p <= |s|
    ensures MatchesFrom(s, p) == Slices(s, Spans(s, p))
    decreases |s| - p
  {
    if p < |s| {
      match MatchEnd(s, p)
      case Some(e) =>
        MatchesAreSlices(s, e);
        assert Slices(s, Spans(s, p)) == [s[p..e]] + Slices(s, Spans(s, e));
      case None =>
        MatchesAreSlices(s, p + 1);
    }
  }

  /** Every match is a shallow object, so it starts with `{`, ends with `}`
      and nests braces at most two deep. */
  lemma MatchesAreShallow(s: string, k: nat)
    requires k < |AllMatches(s)|
    ensures ShallowObject(AllMatches(s)[k])
  {
    var sp := Spans(s, 0);
    MatchesAreSlices(s, 0);
    MatchEndIsPattern(s, sp[k].0, sp[k].1);
  }

  lemma {:induction false} NoBraceNoSpans(s: string, p: nat)
    requires p <= |s|
    requires forall k :: p <= k < |s| ==> s[k] != '{'
    ensures Spans(s, p) == []
    decreases |s| - p
  {
    if p < |s| {
      NoBraceNoSpans(s, p + 1);
    }
  }

  /** Without a `{` there is no match. */
  lemma NoBraceNoMatch(s: string)
    requires '{' !in s
    ensures AllMatches(s) == []
  {
    NoBraceNoSpans(s, 0);
    MatchesAreSlices(s, 0);
  }

  /** The decoded values of the matches that parse, in order. */
  function KeepDecoded(ms: seq<string>, decode: Decoder): (r: seq<Json>)
    ensures |r| <= |ms|
  {
    if ms == [] then []
    else
      var kept := match decode(ms[|ms| - 1]) case Some(v) => [v] case None => [];
      KeepDecoded(ms[..|ms| - 1], decode) + kept
  }

  /** The regular-expression engine's search for the match starting at `i`. */
  method MatchAt(s: string, i: nat) returns (e: Option<nat>)
    requires i < |s|
    ensures e == MatchEnd(s, i)
  {
    if s[i] != '{' {
      return None;
    }
    var k, depth := i + 1, 1;
    while k < |s|
      invariant i < k <= |s|
      invariant depth == 1 || depth == 2
      invariant ScanFrom(s, k, depth) == MatchEnd(s, i)
      decreases |s| - k
    {
      if s[k] == '}' {
        if depth == 1 {
          return Some(k + 1);
        }
        depth := 1;
      } else if s[k] == '{' {
        if depth == 2 {
          return None;
        }
        depth := 2;
      }
      k := k + 1;
    }
    return None;
  }

  /** `str.match(regex)`: the global search, left to right. */
  method MatchAll(s: string) returns (matches: seq<string>)
    ensures matches == AllMatches(s)
  {
    matches := [];
    var p := 0;
    while p < |s|
      invariant 0 <= p <= |s|
      invariant AllMatches(s) == matches + MatchesFrom(s, p)
      decreases |s| - p
    {
      var e := MatchAt(s, p);
      if e.Some? {
        matches := matches + [s[p..e.value]];
        p := e.value;
      } else {
        p := p + 1;
      }
    }
  }

  /** `extractAllJson`: the matches that `JSON.parse` accepts, decoded, in
      order; the others are skipped. */
  method ExtractAllJson(str: string, decode: Decoder) returns (results: seq<Json>)
    ensures results == KeepDecoded(AllMatches(str), decode)
  {
    results := [];
    var matches := MatchAll(str);
    for idx := 0 to |matches|
      invariant results == KeepDecoded(matches[..idx], decode)
    {
      assert matches[..idx + 1][..idx] == matches[..idx];
      match decode(matches[idx]) {
        case Some(parsed) => results := results + [parsed];
        case None =>
      }
    }
    assert matches[..|matches|] == matches;
  }

  /** Each value `extractAllJson` returns decodes from one of the matches, in
      the matches' order, and is therefore an object. */
  lemma {:induction false} KeptAreObjects(ms: seq<string>, decode: Decoder)
    requires LeadingCharAxiom(decode)
    requires forall k :: 0 <= k < |ms| ==> |ms[k]| > 0 && ms[k][0] == '{'
    ensures forall v :: v in KeepDecoded(ms, decode) ==> v.JObject?
  {
    if ms != [] {
      KeptAreObjects(ms[..|ms| - 1], decode);
      var last := ms[|ms| - 1];
      assert |last| > 0 && last[0] == '{';
    }
  }

  /** Everything `extractAllJson` returns is a JSON object, and there are at
      most as many results as matches. */
  lemma ExtractedAreObjects(str: string, decode: Decoder)
    requires LeadingCharAxiom(decode)
    ensures |KeepDecoded(AllMatches(str), decode)| <= |AllMatches(str)|
    ensures forall v :: v in KeepDecoded(AllMatches(str), decode) ==> v.JObject?
  {
    var ms := AllMatches(str);
    forall k | 0 <= k < |ms| ensures |ms[k]| > 0 && ms[k][0] == '{' {
      MatchesAreShallow(str, k);
    }
    KeptAreObjects(ms, decode);
  }
}
