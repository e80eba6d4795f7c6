/** The project-creation dialog: submit validation, the loading flag and
    error around the `onSubmit` call, closing, and the Escape-key guard. The
    `onSubmit` and `onClose` callbacks belong to the parent: `BeginSubmit`
    returns the arguments `onSubmit` is called with, `FinishSubmit` takes its
    outcome, and `HandleClose` reports whether `onClose` was called. */
module CreateProjectModal {
  import opened Wrappers
  import opened Text

  const NameMissing: string := "Bitte geben Sie einen Projektnamen ein"
  const CreateFailed: string := "Projekt konnte nicht erstellt werden."
  const ProjectType: string := "cv_matcher"
  const EscapeKey: string := "Escape"

  /** The arguments of `onSubmit(name, 'cv_matcher', description || undefined)`. */
  datatype SubmitCall = SubmitCall(name: string, projectType: string, description: Option<string>)

  /** `description || undefined`: only the empty text becomes `undefined`;
      the description is not trimmed. */
  function DescriptionArgument(description: string): (r: Option<string>)
    ensures r.None? <==> description == []
    ensures r.Some? ==> r.value == description
  {
    if description == [] then None else Some(description)
  }

  /** `err.message || 'Projekt konnte nicht erstellt werden.'`. */
  function FailureMessage(message: string): (r: string)
    ensures r != []
    ensures message != [] ==> r == message
    ensures message == [] ==> r == CreateFailed
  {
    if message != [] then message else CreateFailed
  }

  class ProjectDialog {
    /** The `isOpen` property the parent passes in. */
    var isOpen: bool
    var name: string
    var description: string
    var error: string
    var isLoading: bool

    constructor(open: bool)
      ensures isOpen == open && name == [] && description == [] && error == [] && !isLoading
    {
      isOpen, name, description, error, isLoading := open, [], [], [], false;
    }

    method SetName(value: string)
      modifies this
      ensures name == value
      ensures isOpen == old(isOpen) && description == old(description) && error == old(error) && isLoading == old(isLoading)
    {
      name := value;
    }

    method SetDescription(value: string)
      modifies this
      ensures description == value
      ensures isOpen == old(isOpen) && name == old(name) && error == old(error) && isLoading == old(isLoading)
    {
      description := value;
    }

    /** `handleSubmit` up to the `await`: the error is cleared; a blank name
        sets the error and stops; otherwise loading starts and `onSubmit`
        receives the untrimmed name. */
    method BeginSubmit() returns (submit: Option<SubmitCall>)
      modifies this
      ensures submit.None? <==> Trim(name) == []
      ensures submit.None? ==> error == NameMissing && isLoading == old(isLoading)
      ensures submit.Some? ==>
        error == [] && isLoading && submit.value == SubmitCall(name, ProjectType, DescriptionArgument(description))
      ensures isOpen == old(isOpen) && name == old(name) && description == old(description)
    {
      error := [];
      if Trim(name) == [] {
        error := NameMissing;
        return None;
      }
      isLoading := true;
      return Some(SubmitCall(name, ProjectType, DescriptionArgument(description)));
    }

    /** `handleSubmit` after the `await`: success clears the inputs, failure
        keeps them and records the message; loading ends either way. */
    method FinishSubmit(outcome: Result<(), string>)
      modifies this
      ensures !isLoading && isOpen == old(isOpen)
      ensures outcome.Success? ==> name == [] && description == [] && error == old(error)
      ensures outcome.Failure? ==>
        name == old(name) && description == old(description) && error == FailureMessage(outcome.error)
    {
      match outcome {
        case Success(_) =>
          name := [];
          description := [];
        case Failure(message) =>
          error := FailureMessage(message);
      }
      isLoading := false;
    }

    /** `handleClose`: ignored while loading; otherwise clears the inputs and
        the error and calls `onClose`. */
    method HandleClose() returns (closed: bool)
      modifies this
      ensures closed <==> !old(isLoading)
      ensures closed ==> name == [] && description == [] && error == []
      ensures !closed ==> name == old(name) && description == old(description) && error == old(error)
      ensures isOpen == old(isOpen) && isLoading == old(isLoading)
    {
      if isLoading {
        return false;
      }
      name, description, error := [], [], [];
      return true;
    }

    /** The `keydown` listener: Escape closes the dialog only while it is open
        and not loading; every other key is ignored. */
    method HandleKey(key: string) returns (closed: bool)
      modifies this
      ensures closed <==> key == EscapeKey && isOpen && !old(isLoading)
      ensures closed ==> name == [] && description == [] && error == []
      ensures !closed ==> name == old(name) && description == old(description) && error == old(error)
      ensures isOpen == old(isOpen) && isLoading == old(isLoading)
    {
      closed := false;
      if key == EscapeKey && isOpen && !isLoading {
        closed := HandleClose();
      }
    }
  }
}
