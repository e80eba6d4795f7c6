/** The job-description form: the derived character count and validity, the
    submit validation, and the change and reset handlers. Messages are the
    translation keys the form passes to `t`; the translated texts live in the
    language context. */
module JobDescriptionInput {
  import opened Wrappers
  import opened Text

  const MinCharacters: nat := 100
  const EmptyErrorKey: string := "job_desc_error_empty"
  const MinCharsErrorKey: string := "job_desc_error_min_chars"

  /** The arguments `onAnalyze` is called with; `None` stands for
      `undefined`. */
  datatype AnalyzeCall = AnalyzeCall(jobDescription: string, jobTitle: Option<string>, companyName: Option<string>)

  /** `characterCount >= MIN_CHARACTERS`, on the untrimmed text: whether the
      submit button is enabled. */
  predicate IsValid(description: string)
  {
    |description| >= MinCharacters
  }

  /** The remaining-characters hint: `MIN_CHARACTERS - characterCount`,
      shown only while `0 < characterCount < MIN_CHARACTERS`. */
  function RemainingHint(description: string): (r: Option<nat>)
    ensures r.Some? <==> 0 < |description| && !IsValid(description)
    ensures r.Some? ==> 0 < r.value < MinCharacters && r.value + |description| == MinCharacters
  {
    if 0 < |description| < MinCharacters then Some(MinCharacters - |description|) else None
  }

  /** `value.trim() || undefined`. */
  function TrimmedOrUndefined(value: string): (r: Option<string>)
    ensures r.None? <==> Trim(value) == []
    ensures r.Some? ==> r.value == Trim(value) && r.value != [] && IsTrimmed(r.value)
  {
    var t := Trim(value);
    if t == [] then None else Some(t)
  }

  /** The error `handleSubmit` sets: the blank check first, then the length
      check on the untrimmed text. */
  function SubmitError(description: string): (r: Option<string>)
    ensures Trim(description) == [] ==> r == Some(EmptyErrorKey)
    ensures Trim(description) != [] && !IsValid(description) ==> r == Some(MinCharsErrorKey)
    ensures r.None? <==> Trim(description) != [] && IsValid(description)
  {
    if Trim(description) == [] then Some(EmptyErrorKey)
    else if |description| < MinCharacters then Some(MinCharsErrorKey)
    else None
  }

  /** An enabled button does not mean an accepted submit: a description of
      one hundred or more whitespace characters enables the button and is
      then rejected as empty. */
  lemma ValidButBlank(description: string)
    requires AllSpace(description) && IsValid(description)
    ensures SubmitError(description) == Some(EmptyErrorKey)
  {
    assert description + [] == description;
    TrimAfterSpaces(description, []);
  }

  /** The minimum is checked on the untrimmed text: padding counts, so a
      single word followed by enough whitespace is accepted, and `onAnalyze`
      receives just the word. */
  lemma PaddingCounts(core: string, pad: string)
    requires core != [] && IsTrimmed(core) && AllSpace(pad)
    requires |core| + |pad| >= MinCharacters
    ensures SubmitError(core + pad).None?
    ensures Trim(core + pad) == core
  {
    assert [] + (core + pad) == core + pad;
    TrimStartOfSpaces([], core + pad);
    TrimEndOfSpaces(core, pad);
  }

  class JobDescriptionForm {
    var jobDescription: string
    var jobTitle: string
    var companyName: string
    var error: string

    constructor()
      ensures jobDescription == [] && jobTitle == [] && companyName == [] && error == []
    {
      jobDescription, jobTitle, companyName, error := [], [], [], [];
    }

    /** `characterCount`. */
    function CharacterCount(): nat
      reads this
    {
      |jobDescription|
    }

    /** Whether the submit button is disabled. */
    predicate SubmitDisabled()
      reads this
    {
      !IsValid(jobDescription)
    }

    /** `handleJobDescriptionChange`: the new text, and the error cleared. */
    method HandleJobDescriptionChange(value: string)
      modifies this
      ensures jobDescription == value && error == []
      ensures jobTitle == old(jobTitle) && companyName == old(companyName)
    {
      jobDescription := value;
      error := [];
    }

    method SetJobTitle(value: string)
      modifies this
      ensures jobTitle == value
      ensures jobDescription == old(jobDescription) && companyName == old(companyName) && error == old(error)
    {
      jobTitle := value;
    }

    method SetCompanyName(value: string)
      modifies this
      ensures companyName == value
      ensures jobDescription == old(jobDescription) && jobTitle == old(jobTitle) && error == old(error)
    {
      companyName := value;
    }

    /** `handleSubmit`: either sets the error and calls nothing, or calls
        `onAnalyze` with the trimmed description and the trimmed title and
        company (blank ones as `undefined`). The fields are not cleared. */
    method HandleSubmit() returns (analyze: Option<AnalyzeCall>)
      modifies this
      ensures analyze.None? <==> SubmitError(jobDescription).Some?
      ensures SubmitDisabled() ==> analyze.None?
      ensures analyze.None? ==> error == SubmitError(jobDescription).value
      ensures analyze.Some? ==> error == [] && analyze.value == AnalyzeCall(
        Trim(jobDescription), TrimmedOrUndefined(jobTitle), TrimmedOrUndefined(companyName))
      ensures jobDescription == old(jobDescription) && jobTitle == old(jobTitle) && companyName == old(companyName)
    {
      error := [];
      if Trim(jobDescription) == [] {
        error := EmptyErrorKey;
        return None;
      }
      if CharacterCount() < MinCharacters {
        error := MinCharsErrorKey;
        return None;
      }
      return Some(AnalyzeCall(Trim(jobDescription), TrimmedOrUndefined(jobTitle), TrimmedOrUndefined(companyName)));
    }

    /** `handleReset`: all four fields cleared. */
    method HandleReset()
      modifies this
      ensures jobDescription == [] && jobTitle == [] && companyName == [] && error == []
    {
      jobDescription, jobTitle, companyName, error := [], [], [], [];
    }
  }
}
