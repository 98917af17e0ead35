/**
 * The `App` component's session: two image slots, the result, a loading flag and an error
 * message, changed by the file-selection, generate and reset handlers, and turned into one of
 * three screens by the render conditions.
 */
module VirtualTryOn {
  import opened Wrappers
  import opened FileUtils

  const ErrorProcessingFile: string := "Error processing file. Please try another image."
  const MissingInputs: string := "Please upload both a person and a clothing item."
  const GenerationFailed: string :=
    "Failed to generate the try-on image. The AI model may not be able to process these images. Please try again with different photos."
  /** What the result image's data URL starts with, before the collaborator's payload. */
  const ResultPrefix: string := "data:image/png;base64,"

  /** Which uploader a file was selected in. */
  datatype Slot = Person | Clothing

  /** What the try-on collaborator answers: a base64 PNG, or a thrown error. */
  datatype SynthesisOutcome = Generated(base64: string) | SynthesisFailed

  /** The two images handed to the collaborator. */
  datatype Request = Request(person: FileData, clothing: FileData)

  /** The five state fields of `App`, as one value (`None` is `null`). */
  datatype AppState = AppState(
    personFileData: Option<FileData>,
    clothingFileData: Option<FileData>,
    resultImage: Option<string>,
    isLoading: bool,
    error: Option<string>)

  /** The initial values the `useState` hooks are given. */
  const Initial: AppState := AppState(None, None, None, false, None)

  /** JavaScript truthiness of a nullable string: not null and not empty. */
  predicate Truthy(o: Option<string>)
  {
    o.Some? && o.value != ""
  }

  /** The condition under which the uploaders, the error banner and the Generate button render. */
  predicate ShowsUploadPanel(s: AppState)
  {
    !Truthy(s.resultImage) && !s.isLoading
  }

  /** The condition under which the spinner renders. */
  predicate ShowsSpinner(s: AppState)
  {
    s.isLoading
  }

  /** The condition under which the result image and the reset button render. */
  predicate ShowsResultPanel(s: AppState)
  {
    Truthy(s.resultImage) && !s.isLoading
  }

  /** The error banner renders inside the upload panel when the error is truthy. */
  predicate ShowsError(s: AppState)
  {
    ShowsUploadPanel(s) && Truthy(s.error)
  }

  /** The Generate button is enabled (its `disabled` expression is false). */
  predicate GenerateEnabled(s: AppState)
  {
    !(s.personFileData.None? || s.clothingFileData.None? || s.isLoading)
  }

  /** The guard at the top of `handleGenerate` passes: both slots hold data. */
  predicate HasBothInputs(s: AppState)
  {
    !(s.personFileData.None? || s.clothingFileData.None?)
  }

  /** The Generate button can be clicked: the upload panel renders it and it is enabled. */
  predicate GenerateClickable(s: AppState)
  {
    ShowsUploadPanel(s) && GenerateEnabled(s)
  }

  /** The reset button can be clicked: it renders only inside the result panel. */
  predicate ResetClickable(s: AppState)
  {
    ShowsResultPanel(s)
  }

  datatype Screen = UploadScreen | SpinnerScreen | ResultScreen

  /** The screen a state renders: the three render conditions pick exactly one. */
  function ScreenOf(s: AppState): (v: Screen)
    ensures v == UploadScreen <==> ShowsUploadPanel(s)
    ensures v == SpinnerScreen <==> ShowsSpinner(s)
    ensures v == ResultScreen <==> ShowsResultPanel(s)
  {
    if s.isLoading then SpinnerScreen
    else if Truthy(s.resultImage) then ResultScreen
    else UploadScreen
  }

  /**
   * What holds of every state the handlers can reach: stored images are as extraction built
   * them, a result is a PNG data URL, and while loading both slots are filled and no result is set.
   */
  predicate Consistent(s: AppState)
  {
    (s.personFileData.Some? ==> WellFormed(s.personFileData.value)) &&
    (s.clothingFileData.Some? ==> WellFormed(s.clothingFileData.value)) &&
    (s.resultImage.Some? ==> ResultPrefix <= s.resultImage.value) &&
    (s.isLoading ==> s.personFileData.Some? && s.clothingFileData.Some? && s.resultImage.None?)
  }

  /** In a reachable state a result is shown exactly when it is non-null. */
  lemma ResultShownIffPresent(s: AppState)
    requires Consistent(s)
    ensures ShowsResultPanel(s) <==> s.resultImage.Some? && !s.isLoading
    ensures ShowsUploadPanel(s) <==> s.resultImage.None? && !s.isLoading
  {
    if s.resultImage.Some? {
      assert s.resultImage.value[..|ResultPrefix|] == ResultPrefix;
    }
  }

  /**
   * The button's enable condition is the handler's own guard plus "not loading". So a click on
   * the rendered button always passes the guard: the missing-inputs branch of `handleGenerate`
   * is reached only when the handler is called other than through that button.
   */
  lemma GenerateEnabledIff(s: AppState)
    ensures GenerateEnabled(s) <==> HasBothInputs(s) && !s.isLoading
    ensures GenerateClickable(s) ==> HasBothInputs(s)
  {
  }

  /**
   * While a generation is in flight neither button that fires a handler is rendered: the upload
   * panel (with Generate) and the result panel (with reset) both need `!isLoading`.
   */
  lemma NoButtonsWhileLoading(s: AppState)
    requires s.isLoading
    ensures !GenerateClickable(s) && !ResetClickable(s)
  {
  }

  /** The component's state, with its handlers as methods. */
  class App {
    var personFileData: Option<FileData>
    var clothingFileData: Option<FileData>
    var resultImage: Option<string>
    var isLoading: bool
    var error: Option<string>

    /** The current values of the five fields. */
    function State(): AppState
      reads this
    {
      AppState(personFileData, clothingFileData, resultImage, isLoading, error)
    }

    predicate Valid()
      reads this
    {
      Consistent(State())
    }

    /** The first render: every hook at its initial value. */
    constructor ()
      ensures Valid() && State() == Initial
    {
      personFileData := None;
      clothingFileData := None;
      resultImage := None;
      isLoading := false;
      error := None;
    }

    /**
     * `handleFileSelect(file, slot)` once the read has completed: a successful extraction
     * replaces that slot only; a failed one sets the fixed file error and changes nothing else.
     */
    method HandleFileSelect(read: ReadOutcome, fileType: string, slot: Slot)
      requires Valid()
      modifies this
      ensures Valid()
      ensures var r := FileToGenerativePart(read, fileType);
        State() ==
          if r.Failure? then old(State()).(error := Some(ErrorProcessingFile))
          else if slot == Person then old(State()).(personFileData := Some(r.value))
          else old(State()).(clothingFileData := Some(r.value))
    {
      var fileData := FileToGenerativePart(read, fileType);
      if fileData.Success? {
        if slot == Person {
          personFileData := Some(fileData.value);
        } else {
          clothingFileData := Some(fileData.value);
        }
      } else {
        error := Some(ErrorProcessingFile);
      }
    }

    /**
     * The synchronous part of `handleGenerate`, up to the collaborator call. With a slot empty it
     * sets the missing-inputs error and calls nothing; otherwise it enters the loading state and
     * returns the request it hands to the collaborator.
     */
    method StartGenerate() returns (request: Option<Request>)
      requires Valid()
      modifies this
      ensures Valid()
      ensures request.Some? <==> old(HasBothInputs(State()))
      ensures old(GenerateClickable(State())) ==> request.Some?
      ensures request.None? ==> State() == old(State()).(error := Some(MissingInputs))
      ensures request.Some? ==>
        request.value == Request(old(personFileData.value), old(clothingFileData.value)) &&
        State() == old(State()).(isLoading := true, error := None, resultImage := None)
      ensures request.Some? ==>
        ScreenOf(State()) == SpinnerScreen && !GenerateClickable(State()) && !ResetClickable(State())
    {
      if personFileData.None? || clothingFileData.None? {
        error := Some(MissingInputs);
        request := None;
        return;
      }
      request := Some(Request(personFileData.value, clothingFileData.value));
      isLoading := true;
      error := None;
      resultImage := None;
    }

    /**
     * The rest of `handleGenerate`, when the collaborator settles: a success stores the PNG data
     * URL, a failure sets the fixed generation error, and loading ends either way. Nothing checks
     * that the session is still the one that started the call.
     */
    method CompleteGenerate(outcome: SynthesisOutcome)
      requires Valid()
      modifies this
      ensures Valid()
      ensures State() ==
        match outcome
        case Generated(b) => old(State()).(resultImage := Some(ResultPrefix + b), isLoading := false)
        case SynthesisFailed => old(State()).(error := Some(GenerationFailed), isLoading := false)
    {
      match outcome {
        case Generated(b) =>
          resultImage := Some(ResultPrefix + b);
        case SynthesisFailed =>
          error := Some(GenerationFailed);
      }
      isLoading := false;
    }

    /**
     * `handleGenerate` run to completion with nothing in between. A completed call ends with
     * exactly one of a result and an error, and not loading.
     */
    method HandleGenerate(outcome: SynthesisOutcome) returns (request: Option<Request>)
      requires Valid()
      modifies this
      ensures Valid()
      ensures request.Some? <==> old(HasBothInputs(State()))
      ensures old(GenerateClickable(State())) ==> request.Some?
      ensures request.None? ==> State() == old(State()).(error := Some(MissingInputs))
      ensures request.Some? ==>
        State() == old(State()).(
          resultImage := if outcome.Generated? then Some(ResultPrefix + outcome.base64) else None,
          error := if outcome.Generated? then None else Some(GenerationFailed),
          isLoading := false)
      ensures request.Some? ==> (resultImage.Some? <==> error.None?)
      ensures request.Some? ==>
        ScreenOf(State()) == if outcome.Generated? then ResultScreen else UploadScreen
    {
      request := StartGenerate();
      if request.Some? {
        CompleteGenerate(outcome);
        ResultShownIffPresent(State());
      }
    }

    /** `handleReset`: every field back to its initial value, whatever the state was. */
    method HandleReset()
      requires Valid()
      modifies this
      ensures Valid() && State() == Initial
    {
      personFileData := None;
      clothingFileData := None;
      resultImage := None;
      error := None;
      isLoading := false;
    }
  }
}
