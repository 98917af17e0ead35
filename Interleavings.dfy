/**
 * Orderings of the `App` handlers' steps. No request token discards a stale response and
 * `handleGenerate` has no loading check, so these orderings show what the state then becomes.
 * While a generation is in flight the rendered page offers neither the Generate nor the reset
 * button (`NoButtonsWhileLoading`), so the orderings that reset or generate again mid-flight
 * arise only when the handlers are invoked other than through those buttons; the one that
 * selects a file mid-flight needs a read started before the spinner appeared.
 */
module Interleavings {
  import opened Wrappers
  import opened FileUtils
  import opened VirtualTryOn

  const SampleType: string := "image/png"
  const SamplePrefix: string := "data:image/png;base64"
  const SamplePayload: string := "iVBORw0K"

  /** A session with both slots filled from the same well-formed data URL. */
  method FilledSession() returns (app: App)
    ensures fresh(app) && app.Valid()
    ensures app.personFileData.Some? && app.clothingFileData.Some?
    ensures !app.isLoading && app.resultImage.None? && app.error.None?
  {
    app := new App();
    WellFormedDataUrl(SamplePrefix, SamplePayload, "", SampleType);
    var read := Loaded(SamplePrefix + "," + SamplePayload + "");
    app.HandleFileSelect(read, SampleType, Person);
    app.HandleFileSelect(read, SampleType, Clothing);
  }

  /**
   * Reset while the collaborator call is in flight, then the call succeeds: the late result is
   * stored anyway, and the result screen shows with both slots empty. The reset button is not
   * rendered in flight, so this reset comes from outside the rendered page.
   */
  method ResultAppliedAfterReset(generated: string) returns (final: AppState, resetClickableInFlight: bool)
    ensures final == Initial.(resultImage := Some(ResultPrefix + generated))
    ensures ScreenOf(final) == ResultScreen
    ensures !resetClickableInFlight
  {
    var app := FilledSession();
    var request := app.StartGenerate();
    resetClickableInFlight := ResetClickable(app.State());
    app.HandleReset();
    app.CompleteGenerate(Generated(generated));
    final := app.State();
    assert (ResultPrefix + generated)[0] == 'd';
  }

  /**
   * Reset while the collaborator call is in flight, then the call fails: the generation error
   * appears on the emptied upload screen. As above, the reset button is not rendered in flight.
   */
  method ErrorAppliedAfterReset() returns (final: AppState, resetClickableInFlight: bool)
    ensures final == Initial.(error := Some(GenerationFailed))
    ensures ScreenOf(final) == UploadScreen && ShowsError(final)
    ensures !resetClickableInFlight
  {
    var app := FilledSession();
    var request := app.StartGenerate();
    resetClickableInFlight := ResetClickable(app.State());
    app.HandleReset();
    app.CompleteGenerate(SynthesisFailed);
    final := app.State();
  }

  /**
   * The handler itself has no loading check: invoked twice before the first call settles it
   * issues two identical requests. What prevents this on the page is that the Generate button
   * is then neither rendered (the upload panel is hidden) nor enabled.
   */
  method RepeatedGenerate() returns (first: Option<Request>, second: Option<Request>, clickableBetween: bool)
    ensures first.Some? && second == first
    ensures !clickableBetween
  {
    var app := FilledSession();
    first := app.StartGenerate();
    clickableBetween := GenerateClickable(app.State());
    second := app.StartGenerate();
  }

  /**
   * A file read that fails while generation is in flight sets the file error, and a later
   * success keeps it: the session then holds both a result and an error.
   */
  method FileErrorDuringGeneration(generated: string) returns (final: AppState)
    ensures final.resultImage == Some(ResultPrefix + generated)
    ensures final.error == Some(ErrorProcessingFile)
    ensures !final.isLoading && final.personFileData.Some? && final.clothingFileData.Some?
  {
    var app := FilledSession();
    var request := app.StartGenerate();
    app.HandleFileSelect(ReadFailed, SampleType, Person);
    app.CompleteGenerate(Generated(generated));
    final := app.State();
  }

  /** Two completed selections for one slot: the one that completes last is kept. */
  method LastCompletedSelectionWins(firstUrl: string, secondUrl: string, fileType: string)
    returns (kept: Option<FileData>)
    requires FileToGenerativePart(Loaded(secondUrl), fileType).Success?
    ensures kept.Some? && kept.value.previewUrl == secondUrl
  {
    var app := new App();
    app.HandleFileSelect(Loaded(firstUrl), fileType, Person);
    app.HandleFileSelect(Loaded(secondUrl), fileType, Person);
    kept := app.personFileData;
  }

  /** Resetting twice leaves the same state as resetting once: the initial one. */
  method ResetTwice(generated: string) returns (once: AppState, twice: AppState)
    ensures once == twice == Initial
  {
    var app := FilledSession();
    var request := app.HandleGenerate(Generated(generated));
    app.HandleReset();
    once := app.State();
    app.HandleReset();
    twice := app.State();
  }
}
