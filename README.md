# CV Matcher: response parsing and form rules

This project is a Dafny model of the part of the CV Matcher front end that
decides things rather than draws them.

- **LLM service** (`LlmService`). It takes the model's reply, removes Markdown code fences, cuts out the first-`{`-to-last-`}` span, decodes it, and validates it into a `MatchResult` with a clamped score. It also covers the array check of the improvement suggestions.
- **JSON helpers** (`JsonParser`):
  - the object-or-array variant of the same extraction;
  - `tryParseJson` and `containsValidJson`;
  - `extractAllJson`, whose global regular expression `\{[^{}]*(?:\{[^{}]*\}[^{}]*)*\}` is modelled three ways: as a depth scan, as a pattern language (objects nested at most two deep, without a further level), and as a loop that collects the matches.
- **Shared text rules** (`Text`): JavaScript whitespace and `trim`, the fence stripping that both parsers share, and the greedy `X[\s\S]*Y` search.
- **Forms and pages**, with each component's state as a class whose methods are the handlers:
  - the login form's validation and submission (`Login`);
  - the job-description form (`JobDescriptionInput`);
  - the create-project dialog (`CreateProjectModal`);
  - the three-step matcher page (`CVMatcherPage`).
- **Document summary** (`DocumentSection`): the conversion of summary records and the memoised totals (joined text, word and character counts).
- **Result cards**: the lookups, bands and section visibility of the comparison table, the development-potential card and the risk-assessment card.

`JSON.parse` is not re-implemented. Every operation that calls it takes it
as a parameter `decode: string -> Option<Json>`, where `None` means
`SyntaxError`. Where a lemma needs the fact that a decoded text starting
with `{` is an object and one starting with `[` is an array (RFC 8259,
section 2), it takes that fact as the hypothesis `LeadingCharAxiom(decode)`.

Each asynchronous handler is split in two:

- `Begin…` covers the synchronous part up to the `await`. It returns the arguments of the call it would make, or `None` when validation stops it.
- `Finish…(outcome)` covers the part after the `await`. It receives the call's result as a `Result`.

## Model

| member | source | states |
|---|---|---|
| Text.TrimStart | src/services/llm.ts:126 | the result is a suffix of the input, everything removed is whitespace, and the result does not start with whitespace |
| Text.TrimEnd | src/services/llm.ts:126 | the result is a prefix, everything removed is whitespace, and the result does not end with whitespace |
| Text.Trim | src/services/llm.ts:126 | the result is trimmed and no longer than the input |
| Text.TrimStartOfSpaces | src/services/llm.ts:126 | removing leading whitespace from whitespace followed by a text that does not start with whitespace gives that text |
| Text.TrimEndOfSpaces | src/services/llm.ts:126 | the mirror image of `TrimStartOfSpaces` for trailing whitespace |
| Text.TrimOfTrimmed | src/services/llm.ts:139 | trimming an already trimmed text changes nothing |
| Text.TrimIdempotent | src/services/llm.ts:139 | trimming twice is trimming once |
| Text.TrimAfterSpaces | src/services/llm.ts:126 | leading whitespace never changes the trimmed text |
| Text.SpaceThenTrimmed | src/services/llm.ts:126 | a single space in front of a trimmed text is trimmed away again |
| Text.DropOpeningFenceMeaning | src/services/llm.ts:129-133 | a leading "```json" is removed in preference to "```", and otherwise the text is unchanged |
| Text.DropClosingFenceMeaning | src/services/llm.ts:135-137 | one trailing "```" is removed, and otherwise the text is unchanged |
| Text.StripCodeFences | src/services/llm.ts:126-139 | the cleaned reply is trimmed and never longer than the reply |
| Text.DropFencesShorten | src/services/llm.ts:129-137 | dropping the fences never lengthens the text |
| Text.DropFencesKeepOut | src/services/llm.ts:129-137 | dropping the fences keeps a slice, so no character is introduced |
| Text.DropClosingOfFenced | src/services/llm.ts:135-137 | a text ending in a fence loses exactly that fence |
| Text.DropOpeningJsonFence | src/services/llm.ts:129-130 | "```json" is removed as a whole |
| Text.DropOpeningPlainFence | src/services/llm.ts:131-132 | a bare "```" is removed when no "json" tag follows |
| Text.NoClosingFence | src/services/llm.ts:135-137 | a text not ending in a backtick is kept |
| Text.BacktickStart | src/services/llm.ts:126 | a text that starts with a backtick and does not end with whitespace is already trimmed |
| Text.FencedJsonBlock | src/services/llm.ts:126-139 | a "```json … ```" block is cleaned to its trimmed body |
| Text.FencedPlainBlock | src/services/llm.ts:126-139 | a "```" block with a newline after the fence is cleaned to its trimmed body |
| Text.UnfencedIsTrim | src/services/llm.ts:126-139 | a reply with no fence at either end is only trimmed |
| Text.NoOpeningFence | src/services/llm.ts:129-133 | a text not starting with a backtick keeps its start |
| Text.PlainReply | src/services/llm.ts:126-139 | a non-empty reply with no backtick at either end of its trimmed form is only trimmed |
| Text.TrimKeepsOut | src/services/llm.ts:126 | trimming introduces no character |
| Text.StripKeepsOut | src/services/llm.ts:126-139 | fence stripping introduces no character |
| Text.OneOpeningFenceOnly | src/services/llm.ts:129-133 | only one opening fence is removed: "``````x" keeps the second fence |
| Text.StrippedPlainFence | src/services/llm.ts:131-139 | after a bare fence is removed, a body starting with a backtick is kept whole |
| Text.JsonTagRemoved | src/services/llm.ts:129-139 | the "json" tag goes with the opening fence |
| Text.FirstIn | src/services/llm.ts:142 | the first position at or after `from` that holds one of the characters, or none |
| Text.LastIn | src/services/llm.ts:142 | the last position before `end` that holds one of the characters, or none |
| Text.GreedySpan | src/services/llm.ts:142 | the span found is a match of `X[\s\S]*Y` that starts leftmost and ends rightmost among all matches, and there is none exactly when no match exists |
| Json.Get | src/services/llm.ts:85-103 | a property is present exactly when the value is an object with that key, and it is that key's value |
| LlmService.ObjectCandidate | src/services/llm.ts:142 | the candidate starts with `{`, ends with `}` and has at least two characters; there is none exactly when no `{` has a later `}` |
| LlmService.ObjectCandidateBounds | src/services/llm.ts:142 | the candidate is a slice with no `{` before it and no `}` after it |
| LlmService.WholeObjectIsCandidate | src/services/llm.ts:142 | a text that is itself `{…}` is its own candidate |
| LlmService.ObjectSearchWithinAnySearch | src/services/llm.ts:142 | whenever the object search finds a candidate, the object-or-array search of utils/jsonParser.ts does too, and without brackets both find the same one |
| LlmService.SameSearchWithoutBrackets | src/services/llm.ts:142 | with no `[` or `]` in the text, the two searches agree |
| LlmService.ParseJsonResponse | src/services/llm.ts:124-152 | it fails only with the two messages; "no object" exactly when there is no candidate; it succeeds exactly when a candidate exists and decodes, and then the value is that decoding |
| LlmService.NoCandidateNoDecode | src/services/llm.ts:143-145 | without a candidate the result does not depend on the decoder, so `JSON.parse` is never consulted |
| LlmService.ParsedIsObject | src/services/llm.ts:142-148 | under the leading-character hypothesis, a successful parse is always an object |
| LlmService.TrailingProse | src/services/llm.ts:142 | prose after an object is dropped when it holds no `}`, and otherwise the greedy search swallows it |
| LlmService.Clamp | src/services/llm.ts:106 | the score lies in [0, 100], is kept when already inside, and goes to the nearer end otherwise |
| LlmService.ValidateMatch | src/services/llm.ts:85-114 | it succeeds exactly when the five required fields have their types; the first failing check gives its message, in source order; on success the fields are copied, the score is clamped and the optional sections are absent |
| LlmService.ParseMatchResult | src/services/llm.ts:79-119 | every failure carries the one generic message; it succeeds exactly when the reply parses and validates, and then the result is `ValidateMatch` of the parsed value, with the score in [0, 100] |
| LlmService.WholeObjectReply | src/services/llm.ts:124-152 | a reply whose trimmed text is an object parses to that object |
| LlmService.ParseOfWholeObject | src/services/llm.ts:142-148 | a cleaned text that is itself an object is decoded whole |
| LlmService.RoundTrip | src/services/llm.ts:79-152 | a reply that is a well-typed object gives back exactly its fields, with the score clamped |
| LlmService.SameCleanedSameParse | src/services/llm.ts:124-152 | two replies that clean to the same text parse to the same result |
| LlmService.SameCleanedSameResult | src/services/llm.ts:79-152 | two replies that clean to the same text validate to the same result |
| LlmService.FenceIrrelevant | src/services/llm.ts:126-139 | wrapping an object reply in a "```json" fence does not change the result |
| LlmService.CVImprovementsAsWritten | src/services/llm.ts:237-252 | it fails only with the generic message, succeeds only with an array the parser returned, and succeeds whenever the parser returns an array |
| LlmService.CVImprovementsNeverSucceed | src/services/llm.ts:237-240 | under the leading-character hypothesis it never succeeds |
| LlmService.ArrayReplyRejected | src/services/llm.ts:237-252 | a reply with no `{` at all, such as a plain JSON array, is rejected with the generic message |
| LlmService.CVImprovements | src/services/llm.ts:237-252 | the corrected check: the same contract over the object-or-array parser |
| LlmService.CVImprovementsAcceptsArray | src/services/llm.ts:237-242 | a reply that is a JSON array yields exactly its items |
| LlmService.WholeArrayReply | src/utils/jsonParser.ts:11-39 | a reply whose trimmed text is an array parses to that array |
| JsonParser.Candidate | src/utils/jsonParser.ts:29 | the candidate starts with `{` or `[`, ends with `}` or `]`; there is none exactly when no opener has a later closer |
| JsonParser.CandidateBounds | src/utils/jsonParser.ts:29 | the candidate is a slice with no `{` or `[` before it and no `}` or `]` after it: from the first opener to the last closer |
| JsonParser.WholeTextIsCandidate | src/utils/jsonParser.ts:29 | a text that is itself bracketed is its own candidate |
| JsonParser.ParseJsonResponse | src/utils/jsonParser.ts:11-39 | the same contract as the service's parser, over the object-or-array candidate: success exactly when a candidate exists and decodes, with that value |
| JsonParser.WholeReply | src/utils/jsonParser.ts:11-39 | a reply whose trimmed text is an object or array parses to that value |
| JsonParser.ParseOfWhole | src/utils/jsonParser.ts:29-35 | a cleaned text that is itself bracketed is decoded whole |
| JsonParser.ContainerHasNoBacktickEnds | src/utils/jsonParser.ts:13-26 | a bracketed text has no fence marker at either end, so the clean-up only trims it |
| JsonParser.CandidateDecodesToContainer | src/utils/jsonParser.ts:29-35 | a decoded candidate is an object or an array |
| JsonParser.ParsedIsObjectOrArray | src/utils/jsonParser.ts:11-39 | a successful parse is an object or an array |
| JsonParser.TryParseJson | src/utils/jsonParser.ts:46-53 | the parsed value on success, and `null` on any failure |
| JsonParser.ContainsValidJson | src/utils/jsonParser.ts:60-67 | true exactly when parsing succeeds |
| JsonParser.ContainsValidIffTryNotNull | src/utils/jsonParser.ts:46-67 | `containsValidJson` holds exactly when `tryParseJson` does not give `null` |
| JsonParser.ScanFrom | src/utils/jsonParser.ts:76 | a scan that ends does so just after a `}` |
| JsonParser.MatchEnd | src/utils/jsonParser.ts:76 | a match starting at `i` ends after at least two characters |
| JsonParser.DepthStep | src/utils/jsonParser.ts:76 | the brace depth changes by one per brace and not otherwise |
| JsonParser.ScanSound | src/utils/jsonParser.ts:76 | what the scan finds belongs to the pattern language |
| JsonParser.ScanComplete | src/utils/jsonParser.ts:76 | every member of the pattern language is found by the scan |
| JsonParser.MatchEndIsPattern | src/utils/jsonParser.ts:76 | a match from `i` ends at `e` exactly when `s[i..e]` belongs to the pattern language |
| JsonParser.Spans | src/utils/jsonParser.ts:76-77 | the global search gives matches in order, without overlap, each one a match at its start |
| JsonParser.SpansCover | src/utils/jsonParser.ts:76-77 | every position where a match could start is covered by a reported match: the global search misses none |
| JsonParser.Slices | src/utils/jsonParser.ts:77 | the matched texts are the slices of the spans |
| JsonParser.MatchesAreSlices | src/utils/jsonParser.ts:77 | the collected matches are exactly the slices of the spans |
| JsonParser.MatchesAreShallow | src/utils/jsonParser.ts:76-77 | every match belongs to the pattern language |
| JsonParser.NoBraceNoSpans | src/utils/jsonParser.ts:76-79 | with no `{` from `p` on, there are no spans |
| JsonParser.NoBraceNoMatch | src/utils/jsonParser.ts:76-79 | a text with no `{` has no matches |
| JsonParser.KeepDecoded | src/utils/jsonParser.ts:80-87 | the decoded values, never more than there are matches |
| JsonParser.MatchAt | src/utils/jsonParser.ts:76 | the scanning loop computes the specified match end |
| JsonParser.MatchAll | src/utils/jsonParser.ts:77 | the collecting loop gives exactly all matches of the global search |
| JsonParser.ExtractAllJson | src/utils/jsonParser.ts:74-91 | the results are the matches that decode, in order, with the others skipped |
| JsonParser.KeptAreObjects | src/utils/jsonParser.ts:80-87 | decoded texts starting with `{` are objects |
| JsonParser.ExtractedAreObjects | src/utils/jsonParser.ts:74-91 | the extracted values are all objects and no more than the matches |
| Login.EmailPatternMeaning | src/components/auth/Login.tsx:19-20 | the email regex holds exactly when there is a non-empty local part with no whitespace or `@`, then an `@`, then a domain with a dot and non-empty parts on both sides |
| Login.PatternIsWellFormed | src/components/auth/Login.tsx:19-20 | one direction of that equivalence |
| Login.WellFormedMatchesPattern | src/components/auth/Login.tsx:19-20 | the other direction |
| Login.PlainSlice | src/components/auth/Login.tsx:19-20 | a whitespace-free slice that avoids the only `@` is a run of `[^\s@]` |
| Login.WellFormedIsTrimmed | src/components/auth/Login.tsx:14-20 | a well-formed address has no surrounding whitespace |
| Login.FormError | src/components/auth/Login.tsx:13-36 | an error is never an empty message |
| Login.PasswordError | src/components/auth/Login.tsx:25-33 | the password checks pass exactly when it has at least 6 characters |
| Login.FormErrorMeaning | src/components/auth/Login.tsx:13-36 | the form is valid exactly when the address is well formed and the password has at least 6 characters; each failure gets its message, checked in source order |
| Login.BlankEmailFailsPattern | src/components/auth/Login.tsx:14-20 | a blank address cannot pass the regex |
| Login.PaddedEmailRejected | src/components/auth/Login.tsx:14-22 | an address with a leading space passes the blank check but fails the regex |
| Login.LeadingSpaceFailsPattern | src/components/auth/Login.tsx:19-20 | the regex refuses a leading space |
| Login.LeadingSpaceTrimmed | src/components/auth/Login.tsx:14 | trimming removes that leading space and leaves the address non-empty |
| Login.FailureMessage | src/components/auth/Login.tsx:52 | the thrown message when it is not empty, otherwise "Login fehlgeschlagen. Bitte versuchen Sie es erneut." |
| Login.LoginForm.constructor | src/components/auth/Login.tsx:6-9 | all fields start empty and nothing is loading |
| Login.LoginForm.SetEmail | src/components/auth/Login.tsx:121 | only the address changes |
| Login.LoginForm.SetPassword | src/components/auth/Login.tsx:138 | only the password changes |
| Login.LoginForm.ValidateForm | src/components/auth/Login.tsx:13-36 | the result is true exactly when there is no form error; on failure the error field is that message |
| Login.LoginForm.BeginSubmit | src/components/auth/Login.tsx:38-49 | login is called with the address and password exactly when the form is valid, and then the error is cleared and the form is loading; otherwise the error is set and no call is made |
| Login.LoginForm.FinishSubmit | src/components/auth/Login.tsx:49-55 | success navigates to "/dashboard"; failure shows the message; loading always ends |
| JobDescriptionInput.RemainingHint | src/components/upload/JobDescriptionInput.tsx:158-177 | the hint shows for a non-empty text under 100 characters, and the remaining count plus the length is 100 |
| JobDescriptionInput.TrimmedOrUndefined | src/components/upload/JobDescriptionInput.tsx:40-41 | `undefined` exactly for a blank field, and otherwise the trimmed, non-empty text |
| JobDescriptionInput.SubmitError | src/components/upload/JobDescriptionInput.tsx:28-36 | "empty" for a blank text, "too short" for a short one, and no error exactly when the text is not blank and has 100 characters |
| JobDescriptionInput.ValidButBlank | src/components/upload/JobDescriptionInput.tsx:17-31 | 100 spaces enable the button but are refused as empty |
| JobDescriptionInput.PaddingCounts | src/components/upload/JobDescriptionInput.tsx:16-39 | trailing whitespace counts towards the minimum, and the text sent on is the unpadded core |
| JobDescriptionInput.JobDescriptionForm.constructor | src/components/upload/JobDescriptionInput.tsx:10-13 | all fields start empty |
| JobDescriptionInput.JobDescriptionForm.HandleJobDescriptionChange | src/components/upload/JobDescriptionInput.tsx:19-22 | the text is replaced and the error cleared |
| JobDescriptionInput.JobDescriptionForm.SetJobTitle | src/components/upload/JobDescriptionInput.tsx:100 | only the title changes |
| JobDescriptionInput.JobDescriptionForm.SetCompanyName | src/components/upload/JobDescriptionInput.tsx:117 | only the company changes |
| JobDescriptionInput.JobDescriptionForm.HandleSubmit | src/components/upload/JobDescriptionInput.tsx:24-43 | no call and the submit error when there is one, and never a call while the button is disabled; otherwise the trimmed text, title and company are passed on and the error is cleared |
| JobDescriptionInput.JobDescriptionForm.HandleReset | src/components/upload/JobDescriptionInput.tsx:45-50 | all four fields are emptied |
| CreateProjectModal.DescriptionArgument | src/components/dashboard/CreateProjectModal.tsx:49 | an empty description becomes `undefined`, and any other is passed on unchanged, untrimmed |
| CreateProjectModal.FailureMessage | src/components/dashboard/CreateProjectModal.tsx:53 | the thrown message when it is not empty, otherwise the default creation error |
| CreateProjectModal.ProjectDialog.constructor | src/components/dashboard/CreateProjectModal.tsx:14-17 | an empty dialog, open or closed as requested |
| CreateProjectModal.ProjectDialog.SetName | src/components/dashboard/CreateProjectModal.tsx:145 | only the name changes |
| CreateProjectModal.ProjectDialog.SetDescription | src/components/dashboard/CreateProjectModal.tsx:164 | only the description changes |
| CreateProjectModal.ProjectDialog.BeginSubmit | src/components/dashboard/CreateProjectModal.tsx:37-49 | a blank name sets the error and makes no call; otherwise the untrimmed name, the type "cv_matcher" and the description argument are submitted while loading |
| CreateProjectModal.ProjectDialog.FinishSubmit | src/components/dashboard/CreateProjectModal.tsx:49-56 | success clears the name and description; failure shows the message; loading always ends |
| CreateProjectModal.ProjectDialog.HandleClose | src/components/dashboard/CreateProjectModal.tsx:59-66 | the dialog closes and clears its fields exactly when it is not loading |
| CreateProjectModal.ProjectDialog.HandleKey | src/components/dashboard/CreateProjectModal.tsx:19-24 | only Escape on an open, idle dialog closes it |
| CVMatcherPage.FirstOccurrence | src/components/matching/CVMatcherPage.tsx:93 | the leftmost occurrence at or after `from`, or none |
| CVMatcherPage.ReplaceFirst | src/components/matching/CVMatcherPage.tsx:93 | only the first occurrence is replaced, and the text is unchanged when there is none |
| CVMatcherPage.FirstPdfRemoved | src/components/matching/CVMatcherPage.tsx:93 | the first ".pdf" is removed wherever it stands, and what follows it is kept |
| CVMatcherPage.UpperCaseExtensionKept | src/components/matching/CVMatcherPage.tsx:93 | ".PDF" is not removed: the replacement is case-sensitive |
| CVMatcherPage.BackStep | src/components/matching/CVMatcherPage.tsx:320 | going back decrements the step but never below 1 |
| CVMatcherPage.ForwardStep | src/components/matching/CVMatcherPage.tsx:331-341 | "Weiter" leads from step 1 to step 2 and "Ergebnisse anzeigen" from step 2 to step 3; the result is always step 2 or 3 |
| CVMatcherPage.ProgressWidth | src/components/matching/CVMatcherPage.tsx:258 | the bar is 0% exactly at step 1, 50% at step 2 and 100% at step 3 |
| CVMatcherPage.ProgressMonotone | src/components/matching/CVMatcherPage.tsx:258 | a later step never shows less progress |
| CVMatcherPage.OrEmpty | src/components/matching/CVMatcherPage.tsx:121-122 | a missing title or company becomes the empty text |
| CVMatcherPage.MatcherPage.constructor | src/components/matching/CVMatcherPage.tsx:26-35 | the page starts at step 1 with nothing loaded |
| CVMatcherPage.MatcherPage.HandleCVParsed | src/components/matching/CVMatcherPage.tsx:90-117 | the CV is recorded under the file name without its first ".pdf", with the raw text, and the page moves to step 2; nothing else changes |
| CVMatcherPage.MatcherPage.HandleJobDescriptionSubmit | src/components/matching/CVMatcherPage.tsx:119-124 | the description, title and company are recorded and the page moves to step 3; an analysis is due exactly when a CV is present and the description is not empty |
| CVMatcherPage.MatcherPage.HandleNewAnalysis | src/components/matching/CVMatcherPage.tsx:147-153 | back to step 1 with the CV, description, result and error cleared, so no analysis is due |
| CVMatcherPage.MatcherPage.GoBack | src/components/matching/CVMatcherPage.tsx:316-327 | callable only while the navigation is shown (not loading, not at step 3); the step follows `BackStep`: a disabled button at step 1 leaves it, step 2 goes to 1; nothing else changes |
| CVMatcherPage.MatcherPage.GoForward | src/components/matching/CVMatcherPage.tsx:316-343 | callable only while the navigation is shown; the step follows `ForwardStep` and advances by one; nothing else changes |
| CVMatcherPage.MatcherPage.ContinueFromProjectSelection | src/components/matching/CVMatcherPage.tsx:236-238 | the page moves to step 2 and nothing else changes |
| CVMatcherPage.MatcherPage.HandleProjectSelect | src/components/matching/CVMatcherPage.tsx:155-157 | the project is selected and nothing else changes |
| CVMatcherPage.MatcherPage.BeginAnalysis | src/components/matching/CVMatcherPage.tsx:69-76 | the analysis is started exactly when the page is at step 3 with a CV and a non-empty description, with the CV text and the description, and loading starts with the error cleared; the collected data are kept |
| CVMatcherPage.MatcherPage.FinishAnalysis | src/components/matching/CVMatcherPage.tsx:76-83 | success stores the result; failure shows the prefixed message; loading always ends; the collected data are kept |
| CVMatcherPage.MatcherPage.BeginSave | src/components/matching/CVMatcherPage.tsx:126-135 | without a selected project the error is set and nothing is saved; otherwise the result is saved into the selected project; the collected data are kept |
| CVMatcherPage.MatcherPage.FinishSave | src/components/matching/CVMatcherPage.tsx:140-144 | a failure shows the prefixed message, success leaves the error; the collected data are kept |
| DocumentSection.FromSummaryEntry | src/components/DocumentSection.tsx:44-54 | a summary record keeps its id, type, name and content; it gets a URL exactly when its type is "url"; a missing date becomes the empty text for both dates |
| DocumentSection.FromSummary | src/components/DocumentSection.tsx:44-54 | the conversion applies to every record, in order |
| DocumentSection.DisplayFilename | src/components/DocumentSection.tsx:180 | a missing or empty file name is shown as "Unnamed" |
| DocumentSection.AllDocs | src/components/DocumentSection.tsx:178-181 | the local documents first, then the database ones, each with its source |
| DocumentSection.Contents | src/components/DocumentSection.tsx:185 | the content of every document, in order |
| DocumentSection.JoinLength | src/components/DocumentSection.tsx:185 | the joined text is as long as the parts together plus one separator between each two |
| DocumentSection.NextSpace | src/components/DocumentSection.tsx:186 | the first whitespace position at or after `k` |
| DocumentSection.SkipSpaces | src/components/DocumentSection.tsx:186 | the end of the whitespace run at `k` |
| DocumentSection.SplitFrom | src/components/DocumentSection.tsx:186 | splitting gives at least one piece, and no piece contains whitespace |
| DocumentSection.NoRunStarts | src/components/DocumentSection.tsx:186 | a stretch with no start of a whitespace run adds nothing to the run count |
| DocumentSection.SplitCount | src/components/DocumentSection.tsx:186 | the number of pieces is one more than the number of whitespace runs |
| DocumentSection.WordCountIsRuns | src/components/DocumentSection.tsx:186-198 | the word count is one more than the number of whitespace runs, so it is at least 1, even for an empty text |
| DocumentSection.Stats | src/components/DocumentSection.tsx:194-201 | a document's statistics are its word count and its length |
| DocumentSection.MakeSummary | src/components/DocumentSection.tsx:176-203 | no summary exactly when both lists are empty; otherwise the number of documents, the joined text with its length and word count, and statistics for every document |
| DocumentSection.SummaryTotals | src/components/DocumentSection.tsx:176-203 | the character total is the sum of the lengths plus 2 per separator; all word counts are at least 1; local documents come first; unnamed database documents are called "Unnamed" |
| ComparisonTable.LevelColor | src/components/matching/ComparisonTable.tsx:9-20 | each known level has its own classes, and any other level gets gray |
| ComparisonTable.LevelIcon | src/components/matching/ComparisonTable.tsx:22-33 | '✓', '~' and '✗' for the known levels, and '?' exactly for the others |
| ComparisonTable.LevelText | src/components/matching/ComparisonTable.tsx:35-46 | German labels for the known levels; any other level is shown as it is |
| ComparisonTable.DetailsCell | src/components/matching/ComparisonTable.tsx:80 | empty details are shown as "-" |
| ComparisonTable.CountLevel | src/components/matching/ComparisonTable.tsx:108-116 | a tally never exceeds the number of rows |
| ComparisonTable.Tallies | src/components/matching/ComparisonTable.tsx:108-116 | the three tallies sum to at most the number of rows, with equality exactly when every row has a known level |
| ComparisonTable.Legend | src/components/matching/ComparisonTable.tsx:48-118 | no table for a missing or empty comparison; otherwise the three tallies, summing to at most the number of rows and to exactly that number when every level is known |
| ComparisonTable.UnrecognisedUncounted | src/components/matching/ComparisonTable.tsx:108-116 | one unknown level makes the tallies fall short |
| DevelopmentPotentialCard.ScoreColor | src/components/matching/DevelopmentPotentialCard.tsx:14-19 | one of the four band colours |
| DevelopmentPotentialCard.ScoreLabel | src/components/matching/DevelopmentPotentialCard.tsx:21-26 | one of the four band labels |
| DevelopmentPotentialCard.Reached | src/components/matching/DevelopmentPotentialCard.tsx:14-26 | no more limits are reached than there are |
| DevelopmentPotentialCard.Band | src/components/matching/DevelopmentPotentialCard.tsx:14-26 | the band is one of four |
| DevelopmentPotentialCard.ColorAndLabelByBand | src/components/matching/DevelopmentPotentialCard.tsx:14-26 | colour and label are the entries for the number of limits (40, 60, 80) the score reaches |
| DevelopmentPotentialCard.ReachedMonotone | src/components/matching/DevelopmentPotentialCard.tsx:14-26 | a higher score reaches at least as many limits |
| DevelopmentPotentialCard.BandsMonotone | src/components/matching/DevelopmentPotentialCard.tsx:14-26 | a higher score never gets a lower colour or label |
| DevelopmentPotentialCard.ColorLabelAgree | src/components/matching/DevelopmentPotentialCard.tsx:14-26 | two scores share a colour exactly when they share a label, exactly when they are in the same band |
| DevelopmentPotentialCard.Render | src/components/matching/DevelopmentPotentialCard.tsx:28-99 | nothing without a potential; the timeline, areas and recommendations show exactly when expanded and non-empty |
| DevelopmentPotentialCard.CollapsedShowsNoSection | src/components/matching/DevelopmentPotentialCard.tsx:12-66 | a collapsed card shows no optional section, and the initially expanded card shows its closing note |
| RiskAssessmentCard.RiskLevelColor | src/components/matching/RiskAssessmentCard.tsx:12-47 | the green, yellow and red colour sets (icons 🟢, 🟡, 🔴) for low, medium and high; the gray set ⚪ exactly for anything else |
| RiskAssessmentCard.RiskLevelText | src/components/matching/RiskAssessmentCard.tsx:49-60 | German labels for the three levels; anything else is shown as it is |
| RiskAssessmentCard.BadgeConsistent | src/components/matching/RiskAssessmentCard.tsx:66-80 | for a known level the badge icon identifies the level, so equal icons mean equal texts |
| RiskAssessmentCard.Render | src/components/matching/RiskAssessmentCard.tsx:62-111 | nothing without an assessment; the colours come from the overall risk; factors and strategies show exactly when expanded and non-empty |

## Left out

- HTTP and storage: the calls of `analyzeMatch`, `extractCVData` and `generateCVImprovements`, and the services behind login, projects and documents. Their results enter the handlers as `Result` parameters.
- `JSON.parse` is not re-implemented; it is the `decode` parameter, constrained only by the leading-character hypothesis.
- Logging with `console.error`, `alert`, and the locale date in the saved document's title are not modelled.
- The HTTP error-detail handling in `generateCVImprovements` is not modelled: its `catch` always ends with the generic message in the model.
- Strings are sequences of characters, not UTF-16 code units. `.length` of a text with characters outside the Basic Multilingual Plane counts one per character here, and two in JavaScript.
- React scheduling is not modelled: effects, re-rendering and the order in which state updates become visible. Each handler is one atomic state change, and each async handler is split into `Begin…` and `Finish…`.
- CVMatcherPage.MatcherPage.HandleCVParsed: the placeholder experience and education records are constant data and are not part of `CVData`.
- CVMatcherPage.MatcherPage.BeginSave: returns only the target project. The document title (with the date) and the JSON text of the result are not modelled.
- The projects-loading effect of the matcher page is a network call and is not modelled.
- CVMatcherPage.MatcherPage.ContinueFromProjectSelection: the button's condition, a non-empty project list, is not a precondition, because the project list is not modelled.
- DocumentSection: file upload, drag and drop, URL entry and the metadata record are I/O or constant data and are not modelled.
- DevelopmentPotentialCard.Render: list fields are always arrays in the model, so an `undefined` list cannot reach the card.
- RiskAssessmentCard.Render: list fields are always arrays in the model, so an `undefined` list cannot reach the card.
- Rendering (markup, class strings other than the looked-up ones, the widths of the score bars) is not modelled. Expansion is a boolean input to the cards' `Render`, and a click negates it.
- Translated messages are modelled by their translation keys.
- Scores are real numbers. `NaN` and infinities are not modelled.
- LlmService.ValidateMatch: a decoded `null` (or any non-object) yields the score message, whereas the source's property access on `null` throws a `TypeError`. Both end in the same generic message of `parseMatchResult`, and the leading-character hypothesis rules out a `null` candidate.

## Findings

| source | as written | input that shows it | evidently intended | confidence | as-written member | corrected member |
|---|---|---|---|---|---|---|
| src/services/llm.ts:237-240 | `generateCVImprovements` parses the reply with the object-only extractor (services/llm.ts:142), which returns the text from the first `{` to the last `}`, so the decoded value is always an object, and `Array.isArray(parsed)` then always fails | the reply `["Mehr Projekte nennen"]` has no `{` and fails with "Kein JSON-Objekt"; the reply `[{"a":1}]` decodes to the object `{"a":1}` and fails "Antwort ist kein Array"; both end in the generic message | accept a reply that is a JSON array, using the object-or-array extraction of utils/jsonParser.ts | not executed | LlmService.CVImprovementsNeverSucceed | LlmService.CVImprovementsAcceptsArray |
