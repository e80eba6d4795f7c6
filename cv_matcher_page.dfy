/** The three-step matching page: upload a CV (step 1), enter the job
    description (step 2), see the analysis (step 3). The page is a state
    machine over `step` and the data collected so far; the analysis and save
    calls are split at their `await`, the `Begin` half returning the call's
    arguments and the `Finish` half taking its outcome. */
module CVMatcherPage {
  import opened Wrappers
  import opened MatchTypes

  const PdfExtension: string := ".pdf"
  const NoProjectMessage: string := "Bitte wählen Sie ein Projekt aus"
  const AnalysisErrorPrefix: string := "Fehler bei der Analyse: "
  const SaveErrorPrefix: string := "Fehler beim Speichern: "
  const DefaultSkills: seq<string> := ["JavaScript", "React", "TypeScript"]

  /** The CV record `handleCVParsed` builds; experience and education are
      fixed placeholder entries and are not modelled. */
  datatype CVData = CVData(name: string, email: string, phone: string, skills: seq<string>, rawText: string)

  predicate OccursAt(s: string, pattern: string, i: nat)
  {
    i + |pattern| <= |s| && s[i..i + |pattern|] == pattern
  }

  /** The first position at or after `from` where `pattern` occurs. */
  function FirstOccurrence(s: string, pattern: string, from: nat): (r: Option<nat>)
    requires from <= |s|
    ensures r.Some? ==> from <= r.value && OccursAt(s, pattern, r.value)
    ensures r.Some? ==> forall k :: from <= k < r.value ==> !OccursAt(s, pattern, k)
    ensures r.None? ==> forall k :: from <= k <= |s| ==> !OccursAt(s, pattern, k)
    decreases |s| - from
  {
    if OccursAt(s, pattern, from) then Some(from)
    else if from == |s| then None
    else FirstOccurrence(s, pattern, from + 1)
  }

  /** `s.replace(pattern, replacement)` with a string pattern and a
      replacement without `$` (no `$&`, `$$` or similar expansion): only the
      first occurrence is replaced. */
  function ReplaceFirst(s: string, pattern: string, replacement: string): (r: string)
    ensures FirstOccurrence(s, pattern, 0).None? ==> r == s
    ensures FirstOccurrence(s, pattern, 0).Some? ==>
      var i := FirstOccurrence(s, pattern, 0).value;
      r == s[..i] + replacement + s[i + |pattern|..]
  {
    match FirstOccurrence(s, pattern, 0)
    case None => s
    case Some(i) => s[..i] + replacement + s[i + |pattern|..]
  }

  /** `filename.replace('.pdf', '')`. */
  function DisplayName(filename: string): string
  {
    ReplaceFirst(filename, PdfExtension, [])
  }

  /** The first ".pdf" is removed wherever it stands, not only at the end: a
      name whose stem has no dot loses exactly that occurrence. */
  lemma FirstPdfRemoved(stem: string, tail: string)
    requires '.' !in stem
    ensures DisplayName(stem + PdfExtension + tail) == stem + tail
  {
    var s := stem + PdfExtension + tail;
    forall k: nat | k < |stem| ensures !OccursAt(s, PdfExtension, k) {
      assert s[k] == stem[k] != '.';
      if k + 4 <= |s| {
        assert s[k..k + 4][0] == s[k];
      }
    }
    assert OccursAt(s, PdfExtension, |stem|) by {
      assert s[|stem|..|stem| + 4] == PdfExtension;
    }
    assert FirstOccurrence(s, PdfExtension, 0) == Some(|stem|);
    assert s[..|stem|] == stem;
    assert s[|stem| + 4..] == tail;
  }

  /** The match is case-sensitive: an upper-case extension is kept. */
  lemma UpperCaseExtensionKept(stem: string)
    requires '.' !in stem
    ensures DisplayName(stem + ".PDF") == stem + ".PDF"
  {
    var s := stem + ".PDF";
    forall k: nat | k <= |s| ensures !OccursAt(s, PdfExtension, k) {
      if k < |stem| {
        assert s[k] == stem[k] != '.';
        assert s[k..k + 4][0] == s[k];
      } else if k == |stem| {
        assert s[k..k + 4][1] == 'P';
      }
    }
  }

  /** The back button: `Math.max(1, step - 1)`. */
  function BackStep(step: int): (r: int)
    ensures 1 <= step <= 3 ==> 1 <= r <= 3
    ensures step > 1 ==> r == step - 1
    ensures step <= 1 ==> r == 1
  {
    if step - 1 > 1 then step - 1 else 1
  }

  /** The forward button shown below steps 1 and 2: "Weiter" at step 1 goes
      to step 2, "Ergebnisse anzeigen" otherwise goes to step 3. */
  function ForwardStep(step: int): (r: int)
    ensures 2 <= r <= 3
    ensures r > step || step >= 3
    ensures step == 1 ==> r == 2
    ensures step == 2 ==> r == 3
  {
    if step == 1 then 2 else 3
  }

  /** The progress bar's width in percent. */
  function ProgressWidth(step: int): (r: nat)
    ensures r <= 100
    ensures step == 1 <==> r == 0
    ensures step == 2 ==> r == 50
    ensures step == 3 ==> r == 100
  {
    if step == 1 then 0 else if step == 2 then 50 else 100
  }

  /** Within the three steps the bar never shrinks as the step grows. */
  lemma ProgressMonotone(a: int, b: int)
    requires 1 <= a <= b <= 3
    ensures ProgressWidth(a) <= ProgressWidth(b)
  {
  }

  /** `title || ''`. */
  function OrEmpty(value: Option<string>): (r: string)
    ensures value.Some? ==> r == value.value
    ensures value.None? ==> r == []
  {
    if value.Some? then value.value else []
  }

  class MatcherPage {
    var step: int
    var cvData: Option<CVData>
    var jobDescription: string
    var jobTitle: string
    var companyName: string
    var matchResult: Option<MatchResult>
    var loading: bool
    var error: Option<string>
    /** The id of the selected project, if any. */
    var selectedProject: Option<string>

    /** `step` is always one of the three steps. */
    ghost predicate Valid()
      reads this
    {
      1 <= step <= 3
    }

    /** Whether the analysis effect starts a request. */
    predicate ShouldAnalyze()
      reads this
    {
      step == 3 && cvData.Some? && jobDescription != []
    }

    /** The back button is disabled exactly at step 1. */
    predicate BackDisabled()
      reads this
    {
      step == 1
    }

    /** The back and forward buttons are shown only while nothing is loading
        and the page is not at step 3. */
    predicate NavigationShown()
      reads this
    {
      !loading && step != 3
    }

    constructor()
      ensures Valid() && step == 1
      ensures cvData.None? && jobDescription == [] && jobTitle == [] && companyName == []
      ensures matchResult.None? && !loading && error.None? && selectedProject.None?
    {
      step := 1;
      cvData := None;
      jobDescription, jobTitle, companyName := [], [], [];
      matchResult := None;
      loading := false;
      error := None;
      selectedProject := None;
    }

    /** `handleCVParsed`: stores the CV built from the text and file name and
        moves to step 2. */
    method HandleCVParsed(text: string, filename: string)
      requires Valid()
      modifies this
      ensures Valid() && step == 2
      ensures cvData == Some(CVData(DisplayName(filename), [], [], DefaultSkills, text))
      ensures jobDescription == old(jobDescription) && matchResult == old(matchResult)
      ensures error == old(error) && loading == old(loading) && selectedProject == old(selectedProject)
      ensures jobTitle == old(jobTitle) && companyName == old(companyName)
    {
      cvData := Some(CVData(DisplayName(filename), [], [], DefaultSkills, text));
      step := 2;
    }

    /** `handleJobDescriptionSubmit`: records the description, title and
        company and moves to step 3, where the analysis starts once a CV is
        present and the description is not empty. */
    method HandleJobDescriptionSubmit(description: string, title: Option<string>, company: Option<string>)
      requires Valid()
      modifies this
      ensures Valid() && step == 3
      ensures jobDescription == description && jobTitle == OrEmpty(title) && companyName == OrEmpty(company)
      ensures cvData == old(cvData) && matchResult == old(matchResult)
      ensures error == old(error) && loading == old(loading) && selectedProject == old(selectedProject)
      ensures ShouldAnalyze() <==> cvData.Some? && description != []
    {
      jobDescription := description;
      jobTitle := OrEmpty(title);
      companyName := OrEmpty(company);
      step := 3;
    }

    /** `handleNewAnalysis`: back to step 1 with the CV, description, result
        and error cleared (title, company and project are kept). */
    method HandleNewAnalysis()
      requires Valid()
      modifies this
      ensures Valid() && step == 1 && !ShouldAnalyze()
      ensures cvData.None? && jobDescription == [] && matchResult.None? && error.None?
      ensures jobTitle == old(jobTitle) && companyName == old(companyName)
      ensures loading == old(loading) && selectedProject == old(selectedProject)
    {
      step := 1;
      cvData := None;
      jobDescription := [];
      matchResult := None;
      error := None;
    }

    /** The back button, which is shown only with the navigation and does
        nothing while disabled. */
    method GoBack()
      requires Valid() && NavigationShown()
      modifies this
      ensures Valid() && step == BackStep(old(step)) && step <= old(step)
      ensures old(BackDisabled()) ==> step == old(step)
      ensures !old(BackDisabled()) ==> step == 1
      ensures cvData == old(cvData) && jobDescription == old(jobDescription) && matchResult == old(matchResult)
      ensures error == old(error) && loading == old(loading) && selectedProject == old(selectedProject)
      ensures jobTitle == old(jobTitle) && companyName == old(companyName)
    {
      step := BackStep(step);
    }

    /** The forward button, shown only with the navigation: "Weiter" at step
        1, "Ergebnisse anzeigen" at step 2. */
    method GoForward()
      requires Valid() && NavigationShown()
      modifies this
      ensures Valid() && step == ForwardStep(old(step)) && step == old(step) + 1
      ensures cvData == old(cvData) && jobDescription == old(jobDescription) && matchResult == old(matchResult)
      ensures error == old(error) && loading == old(loading) && selectedProject == old(selectedProject)
      ensures jobTitle == old(jobTitle) && companyName == old(companyName)
    {
      step := ForwardStep(step);
    }

    /** "Weiter" on the project-selection screen. */
    method ContinueFromProjectSelection()
      requires Valid()
      modifies this
      ensures Valid() && step == 2
      ensures cvData == old(cvData) && jobDescription == old(jobDescription) && matchResult == old(matchResult)
      ensures error == old(error) && loading == old(loading) && selectedProject == old(selectedProject)
      ensures jobTitle == old(jobTitle) && companyName == old(companyName)
    {
      step := 2;
    }

    /** `handleProjectSelect`. */
    method HandleProjectSelect(projectId: string)
      requires Valid()
      modifies this
      ensures Valid() && selectedProject == Some(projectId) && step == old(step)
      ensures cvData == old(cvData) && jobDescription == old(jobDescription) && matchResult == old(matchResult)
      ensures error == old(error) && loading == old(loading)
      ensures jobTitle == old(jobTitle) && companyName == old(companyName)
    {
      selectedProject := Some(projectId);
    }

    /** The analysis effect up to the `await`: only when `ShouldAnalyze()`,
        loading starts, the error is cleared, and `analyzeMatch` receives the
        CV text and the description. */
    method BeginAnalysis() returns (analyze: Option<(string, string)>)
      requires Valid()
      modifies this
      ensures Valid() && step == old(step)
      ensures analyze.Some? <==> old(ShouldAnalyze())
      ensures analyze.Some? ==>
        cvData.Some? && analyze.value == (cvData.value.rawText, jobDescription) && loading && error.None?
      ensures analyze.None? ==> loading == old(loading) && error == old(error)
      ensures cvData == old(cvData) && jobDescription == old(jobDescription) && matchResult == old(matchResult)
      ensures selectedProject == old(selectedProject)
      ensures jobTitle == old(jobTitle) && companyName == old(companyName)
    {
      if !ShouldAnalyze() {
        return None;
      }
      loading := true;
      error := None;
      return Some((cvData.value.rawText, jobDescription));
    }

    /** The analysis effect after the `await`: the result is stored, or the
        error is prefixed with "Fehler bei der Analyse: "; loading ends. */
    method FinishAnalysis(outcome: Result<MatchResult, string>)
      requires Valid()
      modifies this
      ensures Valid() && step == old(step) && !loading
      ensures outcome.Success? ==> matchResult == Some(outcome.value) && error == old(error)
      ensures outcome.Failure? ==> matchResult == old(matchResult) && error == Some(AnalysisErrorPrefix + outcome.error)
      ensures cvData == old(cvData) && jobDescription == old(jobDescription) && selectedProject == old(selectedProject)
      ensures jobTitle == old(jobTitle) && companyName == old(companyName)
    {
      match outcome {
        case Success(result) => matchResult := Some(result);
        case Failure(message) => error := Some(AnalysisErrorPrefix + message);
      }
      loading := false;
    }

    /** `handleSaveToProject` up to the `await`: without a selected project
        the error is set and nothing is saved; otherwise the result is saved
        into the selected project. */
    method BeginSave() returns (saveInto: Option<string>)
      requires Valid()
      modifies this
      ensures Valid() && step == old(step)
      ensures saveInto.None? <==> selectedProject.None?
      ensures saveInto.None? ==> error == Some(NoProjectMessage)
      ensures saveInto.Some? ==> saveInto == selectedProject && error == old(error)
      ensures cvData == old(cvData) && jobDescription == old(jobDescription) && matchResult == old(matchResult)
      ensures loading == old(loading) && selectedProject == old(selectedProject)
      ensures jobTitle == old(jobTitle) && companyName == old(companyName)
    {
      if selectedProject.None? {
        error := Some(NoProjectMessage);
        return None;
      }
      return selectedProject;
    }

    /** `handleSaveToProject` after the `await`: a failure is reported with
        the prefix "Fehler beim Speichern: "; success only shows an alert. */
    method FinishSave(outcome: Result<(), string>)
      requires Valid()
      modifies this
      ensures Valid() && step == old(step)
      ensures outcome.Success? ==> error == old(error)
      ensures outcome.Failure? ==> error == Some(SaveErrorPrefix + outcome.error)
      ensures cvData == old(cvData) && jobDescription == old(jobDescription) && matchResult == old(matchResult)
      ensures loading == old(loading) && selectedProject == old(selectedProject)
      ensures jobTitle == old(jobTitle) && companyName == old(companyName)
    {
      if outcome.Failure? {
        error := Some(SaveErrorPrefix + outcome.error);
      }
    }
  }
}
