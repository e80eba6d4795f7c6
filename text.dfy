/** String primitives the source takes from JavaScript: `trim`, `startsWith`,
    `endsWith`, the markdown-fence clean-up shared by both `parseJsonResponse`
    functions, and the greedy `X[\s\S]*Y` regular-expression search they use to
    cut the JSON candidate out of the cleaned text. */
module Text {
  import opened Wrappers

  /** JavaScript's WhiteSpace and LineTerminator characters: what `trim`
      removes and what the regular-expression class `\s` matches. */
  predicate IsSpace(c: char)
  {
    || c == '\t' || c == '\n' || c == '\U{000B}' || c == '\U{000C}' || c == '\r'
    || c == ' ' || c == '\U{00A0}' || c == '\U{1680}'
    || ('\U{2000}' <= c <= '\U{200A}')
    || c == '\U{2028}' || c == '\U{2029}' || c == '\U{202F}' || c == '\U{205F}'
    || c == '\U{3000}' || c == '\U{FEFF}'
  }

  ghost predicate AllSpace(s: string)
  {
    forall i :: 0 <= i < |s| ==> IsSpace(s[i])
  }

  /** Neither starts nor ends with a space: what `trim` returns. */
  predicate IsTrimmed(s: string)
  {
    s == [] || (!IsSpace(s[0]) && !IsSpace(s[|s| - 1]))
  }

  /** Drops the leading spaces: the result is the suffix of `s` that starts at
      its first non-space character. */
  function TrimStart(s: string): (r: string)
    ensures |r| <= |s| && r == s[|s| - |r|..]
    ensures AllSpace(s[..|s| - |r|])
    ensures r == [] || !IsSpace(r[0])
    decreases |s|
  {
    if s != [] && IsSpace(s[0]) then
      var r := TrimStart(s[1..]);
      assert s[..|s| - |r|] == [s[0]] + s[1..][..|s| - 1 - |r|];
      r
    else s
  }

  /** Drops the trailing spaces: the result is the prefix of `s` that ends at
      its last non-space character. */
  function TrimEnd(s: string): (r: string)
    ensures |r| <= |s| && r == s[..|r|]
    ensures AllSpace(s[|r|..])
    ensures r == [] || !IsSpace(r[|r| - 1])
    decreases |s|
  {
    if s != [] && IsSpace(s[|s| - 1]) then
      var r := TrimEnd(s[..|s| - 1]);
      assert s[|r|..] == s[..|s| - 1][|r|..] + [s[|s| - 1]];
      r
    else s
  }

  /** `String.prototype.trim`. */
  function Trim(s: string): (r: string)
    ensures IsTrimmed(r) && |r| <= |s|
  {
    TrimEnd(TrimStart(s))
  }

  lemma {:induction false} TrimStartOfSpaces(p: string, t: string)
    requires AllSpace(p) && (t == [] || !IsSpace(t[0]))
    ensures TrimStart(p + t) == t
    decreases |p|
  {
    if p != [] {
      assert (p + t)[1..] == p[1..] + t;
      TrimStartOfSpaces(p[1..], t);
    } else {
      assert p + t == t;
    }
  }

  lemma {:induction false} TrimEndOfSpaces(t: string, q: string)
    requires AllSpace(q) && (t == [] || !IsSpace(t[|t| - 1]))
    ensures TrimEnd(t + q) == t
    decreases |q|
  {
    if q != [] {
      assert (t + q)[..|t + q| - 1] == t + q[..|q| - 1];
      TrimEndOfSpaces(t, q[..|q| - 1]);
    } else {
      assert t + q == t;
    }
  }

  /** A text without surrounding spaces is its own trim. */
  lemma TrimOfTrimmed(s: string)
    requires IsTrimmed(s)
    ensures Trim(s) == s
  {
    assert TrimStart(s) == s;
  }

  /** `trim` is idempotent. */
  lemma TrimIdempotent(s: string)
    ensures Trim(Trim(s)) == Trim(s)
  {
    TrimOfTrimmed(Trim(s));
  }

  /** Leading spaces never change the trimmed text. */
  lemma {:induction false} TrimAfterSpaces(p: string, s: string)
    requires AllSpace(p)
    ensures Trim(p + s) == Trim(s)
    decreases |p|
  {
    if p == [] {
      assert p + s == s;
    } else {
      assert (p + s)[1..] == p[1..] + s;
      TrimAfterSpaces(p[1..], s);
    }
  }

  /** One space before an already trimmed text is all `trim` removes. */
  lemma SpaceThenTrimmed(s: string)
    requires IsTrimmed(s)
    ensures Trim(" " + s) == s
  {
    assert AllSpace(" ");
    TrimAfterSpaces(" ", s);
    TrimOfTrimmed(s);
  }

  predicate StartsWith(s: string, prefix: string)
  {
    |prefix| <= |s| && s[..|prefix|] == prefix
  }

  predicate EndsWith(s: string, suffix: string)
  {
    |suffix| <= |s| && s[|s| - |suffix|..] == suffix
  }

  const Fence: string := "```"
  const JsonFence: string := "```json"

  /** Drops ONE leading "```json" if present, otherwise ONE leading "```". */
  function DropOpeningFence(t: string): string
  {
    if StartsWith(t, JsonFence) then t[|JsonFence|..]
    else if StartsWith(t, Fence) then t[|Fence|..]
    else t
  }

  /** At most one opening fence goes, "```json" in preference to "```", and a
      text with neither is kept. */
  lemma DropOpeningFenceMeaning(t: string)
    ensures StartsWith(t, JsonFence) ==> t == JsonFence + DropOpeningFence(t)
    ensures !StartsWith(t, JsonFence) && StartsWith(t, Fence) ==> t == Fence + DropOpeningFence(t)
    ensures !StartsWith(t, Fence) ==> DropOpeningFence(t) == t
  {
    if StartsWith(t, JsonFence) {
      assert t == t[..|JsonFence|] + t[|JsonFence|..];
    } else if StartsWith(t, Fence) {
      assert t == t[..|Fence|] + t[|Fence|..];
    }
  }

  /** Drops ONE trailing "```" if present. */
  function DropClosingFence(a: string): string
  {
    if EndsWith(a, Fence) then a[..|a| - |Fence|] else a
  }

  /** At most one closing fence goes, and a text without one is kept. */
  lemma DropClosingFenceMeaning(a: string)
    ensures EndsWith(a, Fence) ==> a == DropClosingFence(a) + Fence
    ensures !EndsWith(a, Fence) ==> DropClosingFence(a) == a
  {
    if EndsWith(a, Fence) {
      assert a == a[..|a| - |Fence|] + a[|a| - |Fence|..];
    }
  }

  /** The clean-up both `parseJsonResponse` functions apply before searching
      for JSON: trim, drop the opening fence, drop the closing fence, trim
      again. */
  function StripCodeFences(response: string): (cleaned: string)
    ensures IsTrimmed(cleaned) && |cleaned| <= |response|
  {
    var t := Trim(response);
    DropFencesShorten(t);
    Trim(DropFences(t))
  }

  /** Both fence markers dropped, opening first. */
  function DropFences(t: string): string
  {
    DropClosingFence(DropOpeningFence(t))
  }

  /** Dropping the fences only shortens the text. */
  lemma DropFencesShorten(t: string)
    ensures |DropFences(t)| <= |t|
  {
    var a := DropOpeningFence(t);
    assert |a| <= |t|;
  }

  /** Dropping the fences keeps a slice of the text, so a character absent
      from the text is absent from the result. */
  lemma DropFencesKeepOut(t: string, c: char)
    requires c !in t
    ensures c !in DropFences(t)
  {
    var a := DropOpeningFence(t);
    assert a == t[|t| - |a|..];
    assert c !in a;
    var b := DropClosingFence(a);
    assert b == a[..|b|];
  }

  lemma DropClosingOfFenced(body: string)
    ensures DropClosingFence(body + Fence) == body
  {
    var a := body + Fence;
    assert a[|a| - |Fence|..] == Fence;
  }

  lemma DropOpeningJsonFence(x: string)
    ensures DropOpeningFence(JsonFence + x) == x
  {
    var s := JsonFence + x;
    assert s[..|JsonFence|] == JsonFence;
  }

  lemma DropOpeningPlainFence(x: string)
    requires x != [] && x[0] != 'j'
    ensures DropOpeningFence(Fence + x) == x
  {
    var s := Fence + x;
    assert s[3] == x[0] && JsonFence[3] == 'j';
    assert s[..|Fence|] == Fence;
  }

  lemma NoClosingFence(x: string)
    requires x != [] && x[|x| - 1] != '`'
    ensures DropClosingFence(x) == x
  {
  }

  lemma BacktickStart(s: string)
    requires |s| > 0 && s[0] == '`' && !IsSpace(s[|s| - 1])
    ensures Trim(s) == s
  {
    TrimOfTrimmed(s);
  }

  /** A reply wrapped in a "```json" block cleans to the trimmed block body. */
  lemma FencedJsonBlock(body: string)
    ensures StripCodeFences(JsonFence + body + Fence) == Trim(body)
  {
    assert JsonFence + body + Fence == JsonFence + (body + Fence);
    BacktickStart(JsonFence + (body + Fence));
    DropOpeningJsonFence(body + Fence);
    DropClosingOfFenced(body);
  }

  /** A reply wrapped in an untagged block whose first line is empty cleans to
      the trimmed block body as well. */
  lemma FencedPlainBlock(body: string)
    ensures StripCodeFences(Fence + "\n" + body + Fence) == Trim(body)
  {
    assert Fence + "\n" + body + Fence == Fence + (("\n" + body) + Fence);
    BacktickStart(Fence + (("\n" + body) + Fence));
    DropOpeningPlainFence(("\n" + body) + Fence);
    DropClosingOfFenced("\n" + body);
    TrimAfterSpaces("\n", body);
  }

  /** Without fence markers at either end, the clean-up is just `trim`. */
  lemma UnfencedIsTrim(response: string)
    requires !StartsWith(Trim(response), Fence) && !EndsWith(Trim(response), Fence)
    ensures StripCodeFences(response) == Trim(response)
  {
    DropOpeningFenceMeaning(Trim(response));
    DropClosingFenceMeaning(Trim(response));
    TrimIdempotent(response);
  }

  lemma NoOpeningFence(t: string)
    requires t != [] && t[0] != '`'
    ensures DropOpeningFence(t) == t
  {
    assert Fence[0] == '`';
    if |Fence| <= |t| {
      assert t[..|Fence|][0] == t[0];
    }
  }

  /** A non-empty text whose first and last characters are not backticks. */
  predicate NoBacktickEnds(t: string)
  {
    t != [] && t[0] != '`' && t[|t| - 1] != '`'
  }

  /** A reply whose trimmed text neither starts nor ends with a backtick
      cleans to the trimmed text. */
  lemma PlainReply(response: string)
    requires NoBacktickEnds(Trim(response))
    ensures StripCodeFences(response) == Trim(response)
  {
    var t := Trim(response);
    NoOpeningFence(t);
    NoClosingFence(t);
    TrimOfTrimmed(t);
  }

  lemma TrimKeepsOut(s: string, c: char)
    requires c !in s
    ensures c !in Trim(s)
  {
    var a := TrimStart(s);
    assert a == s[|s| - |a|..];
    assert c !in a;
    assert TrimEnd(a) == a[..|TrimEnd(a)|];
  }

  /** The clean-up only removes characters: one absent from the reply is
      absent from the cleaned text. */
  lemma StripKeepsOut(response: string, c: char)
    requires c !in response
    ensures c !in StripCodeFences(response)
  {
    TrimKeepsOut(response, c);
    var t := Trim(response);
    DropFencesKeepOut(t, c);
    TrimKeepsOut(DropFences(t), c);
  }

  /** Only one leading fence is removed: a doubled opening fence leaves the
      second one in place. */
  lemma OneOpeningFenceOnly(x: string)
    requires x != [] && !IsSpace(x[|x| - 1]) && x[|x| - 1] != '`'
    ensures StripCodeFences(Fence + Fence + x) == Fence + x
  {
    var y := Fence + x;
    assert y[0] == '`' && y[|y| - 1] == x[|x| - 1];
    assert Fence + Fence + x == Fence + y;
    StrippedPlainFence(y);
  }

  lemma StrippedPlainFence(y: string)
    requires y != [] && y[0] == '`' && !IsSpace(y[|y| - 1]) && y[|y| - 1] != '`'
    ensures StripCodeFences(Fence + y) == y
  {
    calc {
      StripCodeFences(Fence + y);
      Trim(DropClosingFence(DropOpeningFence(Trim(Fence + y))));
      { BacktickStart(Fence + y); }
      Trim(DropClosingFence(DropOpeningFence(Fence + y)));
      { DropOpeningPlainFence(y); }
      Trim(DropClosingFence(y));
      { NoClosingFence(y); }
      Trim(y);
      { BacktickStart(y); }
      y;
    }
  }

  /** "```json" is tried before "```": the language tag is removed along with
      the fence. */
  lemma JsonTagRemoved(x: string)
    requires x != [] && !IsSpace(x[|x| - 1]) && x[|x| - 1] != '`'
    ensures StripCodeFences(JsonFence + x) == Trim(x)
  {
    BacktickStart(JsonFence + x);
    DropOpeningJsonFence(x);
    NoClosingFence(x);
  }

  /** Index of the first character of `s[from..]` that is in `cs`. */
  function FirstIn(s: string, cs: set<char>, from: nat): (r: Option<nat>)
    requires from <= |s|
    ensures r.Some? ==> from <= r.value < |s| && s[r.value] in cs
    ensures r.Some? ==> forall k :: from <= k < r.value ==> s[k] !in cs
    ensures r.None? ==> forall k :: from <= k < |s| ==> s[k] !in cs
    decreases |s| - from
  {
    if from == |s| then None
    else if s[from] in cs then Some(from)
    else FirstIn(s, cs, from + 1)
  }

  /** Index of the last character of `s[..end]` that is in `cs`. */
  function LastIn(s: string, cs: set<char>, end: nat): (r: Option<nat>)
    requires end <= |s|
    ensures r.Some? ==> r.value < end && s[r.value] in cs
    ensures r.Some? ==> forall k :: r.value < k < end ==> s[k] !in cs
    ensures r.None? ==> forall k :: 0 <= k < end ==> s[k] !in cs
    decreases end
  {
    if end == 0 then None
    else if s[end - 1] in cs then Some(end - 1)
    else LastIn(s, cs, end - 1)
  }

  /** The text `s[i..e]` matches the pattern `O[\s\S]*C`, where `O` is a
      character of `open` and `C` one of `close`. */
  ghost predicate SpanMatch(s: string, open: set<char>, close: set<char>, i: int, e: int)
  {
    0 <= i && i + 1 < e <= |s| && s[i] in open && s[e - 1] in close
  }

  /** `s.match(/O[\s\S]*C/)`: the regular-expression engine takes the leftmost
      start that admits a match and, `[\s\S]*` being greedy, the longest match
      from there. The result is the span `(start, end)`, end exclusive. */
  function GreedySpan(s: string, open: set<char>, close: set<char>): (r: Option<(nat, nat)>)
    requires open !! close
    ensures r.Some? ==> SpanMatch(s, open, close, r.value.0, r.value.1)
    ensures r.Some? ==> forall i, e :: SpanMatch(s, open, close, i, e) ==>
                          r.value.0 < i || (r.value.0 == i && e <= r.value.1)
    ensures r.None? <==> forall i, e :: !SpanMatch(s, open, close, i, e)
  {
    match FirstIn(s, open, 0)
    case None => None
    case Some(i) =>
      match LastIn(s, close, |s|)
      case None => None
      case Some(j) =>
        if i < j then assert SpanMatch(s, open, close, i, j + 1); Some((i, j + 1))
        else None
  }
}
