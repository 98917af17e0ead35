# Virtual try-on session model

A Dafny model of the client-side core of a virtual try-on web app. The user uploads a photo of
a person and a photo of a clothing item, and an external image-synthesis service composes them.
Two pieces hold the behaviour:

- `FileUtils` (from `utils/fileUtils.ts`): the `onload` logic of `fileToGenerativePart`. The
  browser's data URL (`data:<mime>;base64,<payload>`, section 3 of RFC 2397) is kept whole as
  `previewUrl`. The payload is `result.split(',')[1]`. A missing or empty payload rejects, and so
  does a read error. `file.type` passes through as `mimeType`. `Split` follows JavaScript's
  `String.prototype.split` for a one-character separator, and `SecondField` gives `undefined`
  (`None`) when there is no second field. The lemmas locate the payload by position in the
  preview string, and they characterise exactly which read strings fail.
- `VirtualTryOn` (from `App.tsx`): the `App` component's five `useState` fields as a class `App`.
  The handlers are its methods. `handleGenerate` is split into `StartGenerate` (up to the
  collaborator call) and `CompleteGenerate` (when the call settles); `HandleGenerate` runs the
  two with nothing in between. The render conditions are predicates over an `AppState` snapshot.
  `ScreenOf` shows that they select exactly one of three screens. `Consistent` is the invariant
  every handler keeps.
- `Interleavings`: orderings of the step methods. No request token discards a stale response,
  and `handleGenerate` does not check `isLoading`. These orderings show the consequences: a late
  result or error applied after a reset, two requests from two calls, and a result and an error
  held together. While a generation is in flight the page renders neither the Generate button
  (the upload panel needs `!isLoading`, App.tsx:74; the button is also disabled, App.tsx:102) nor
  the reset button (the result panel needs `!isLoading`, App.tsx:120, and the button sits inside
  it, App.tsx:126-127). `NoButtonsWhileLoading` proves this. So a reset or a second generate in
  flight happens only when the handlers are invoked other than through the rendered buttons. A
  file selection in flight needs a read started before the spinner appeared.

The collaborator `performVirtualTryOn` is an input: `SynthesisOutcome` is either `Generated(base64)`
or `SynthesisFailed`. The `FileReader` result is an input as well: `ReadOutcome` is either
`Loaded(dataUrl)` or `ReadFailed`.

What the code does not do, and the model therefore does not either:
- No request token discards a stale response: a completion after a reset is applied
  (`Interleavings.ResultAppliedAfterReset`).
- `handleGenerate` has no loading check of its own: a second call in flight issues a second
  request (`Interleavings.RepeatedGenerate`). On the page, the hidden upload panel (App.tsx:74)
  and the disabled button (App.tsx:102) keep that call from being made.
- The missing-inputs error (App.tsx:33-35) is never reached through the page: the Generate
  button is enabled only when both slots are filled (`GenerateEnabledIff`), so that error arises
  only when the handler is called other than through the rendered button.
- There is no explicit phase value and no media-type check: the state is the five fields, and
  `file.type` passes through unchecked.

## Model

| member | source | states |
|---|---|---|
| `FileUtils.Split` | utils/fileUtils.ts:17 | `result.split(',')`: at least one field, no field contains the separator, and joining the fields with the separator gives back the input |
| `FileUtils.SplitJoin` | utils/fileUtils.ts:17 | the converse round trip: splitting a join of separator-free fields returns exactly those fields |
| `FileUtils.IndexOf` | utils/fileUtils.ts:17 | the split point: a position holding the comma with no comma before it |
| `FileUtils.SecondField` | utils/fileUtils.ts:17 | `result.split(',')[1]`: defined exactly when the string holds a comma (otherwise `undefined`), and then comma-free |
| `FileUtils.SecondFieldIff` | utils/fileUtils.ts:17 | `split(',')[1]` is defined and equals `p` exactly when `p` starts right after the first comma, is comma-free, and runs to the next comma or to the end |
| `FileUtils.FileToGenerativePart` | utils/fileUtils.ts:9-31 | a read error rejects; on success `previewUrl` is the whole read string, `mimeType` is the declared type, and `base64` is non-empty and is the second comma field of the preview |
| `FileUtils.ExtractionFailsExactly` | utils/fileUtils.ts:17-21 | extraction fails exactly when the string has no comma, or its first comma is last or directly followed by a comma; the failure is the extraction error, with no partial result |
| `FileUtils.WellFormedDataUrl` | utils/fileUtils.ts:13-26 | for `prefix,payload` (comma-free prefix, non-empty comma-free payload, optionally followed by comma-led text) the result is exactly `FileData(payload, type, whole url)` |
| `FileUtils.PreviewEmbedsPayload` | utils/fileUtils.ts:13-25 | every success has `previewUrl == prefix + "," + base64 + rest`, with a comma-free prefix and `rest` empty or starting with a comma |
| `VirtualTryOn.ScreenOf` | App.tsx:74-120 | the upload-panel, spinner and result-panel conditions are mutually exclusive and one always holds |
| `VirtualTryOn.ResultShownIffPresent` | App.tsx:74-120 | in a consistent state the result panel shows exactly when `resultImage` is non-null and not loading, and the upload panel exactly when it is null and not loading |
| `VirtualTryOn.Truthy` | App.tsx:74 | JavaScript truthiness of a nullable string, as the render conditions use it: not null and not empty |
| `VirtualTryOn.ShowsUploadPanel` | App.tsx:74 | the upload panel renders when `!resultImage && !isLoading` |
| `VirtualTryOn.ShowsError` | App.tsx:97 | the error banner renders inside the upload panel when `error` is truthy |
| `VirtualTryOn.GenerateEnabled` | App.tsx:102 | the Generate button's `disabled` expression is false |
| `VirtualTryOn.ShowsSpinner` | App.tsx:112 | the spinner renders when `isLoading` |
| `VirtualTryOn.ShowsResultPanel` | App.tsx:120 | the result panel renders when `resultImage && !isLoading` |
| `VirtualTryOn.GenerateClickable` | App.tsx:74-102 | the Generate button can be clicked: the upload panel renders it and its `disabled` expression is false |
| `VirtualTryOn.ResetClickable` | App.tsx:120-127 | the reset button can be clicked: it is rendered, which happens only inside the result panel |
| `VirtualTryOn.HasBothInputs` | App.tsx:33 | the guard at the top of `handleGenerate` passes: both slots hold data |
| `VirtualTryOn.GenerateEnabledIff` | App.tsx:33-102 | the button is enabled exactly when the handler's guard passes and nothing is loading, so a clickable button always passes the guard |
| `VirtualTryOn.NoButtonsWhileLoading` | App.tsx:74-127 | while loading, neither the Generate button (upload panel) nor the reset button (result panel) is rendered |
| `VirtualTryOn.App.constructor` | App.tsx:11-16 | the state starts at the initial values: both slots, result and error null, not loading |
| `VirtualTryOn.App.HandleFileSelect` | App.tsx:18-30 | a successful read replaces only the chosen slot; a failed one sets "Error processing file. Please try another image." and changes nothing else; the invariant is kept |
| `VirtualTryOn.App.StartGenerate` | App.tsx:32-40 | a request is made exactly when the guard passes, so always when Generate was clickable; with a slot empty only the missing-inputs error is set; otherwise the request carries both slots, loading starts, error and result are cleared, the slots are kept, and the spinner shows with neither button clickable |
| `VirtualTryOn.App.CompleteGenerate` | App.tsx:42-50 | success stores `"data:image/png;base64," + s` and failure sets the fixed generation error; loading ends either way and nothing else changes |
| `VirtualTryOn.App.HandleGenerate` | App.tsx:32-51 | a request is made exactly when the guard passes (always when Generate was clickable); an uninterrupted generate ends not loading, with exactly one of result and error set, on the result screen after success and the upload screen after failure |
| `VirtualTryOn.App.HandleReset` | App.tsx:53-59 | every field returns to its initial value from any state, so resetting is idempotent |
| `Interleavings.ResultAppliedAfterReset` | App.tsx:42-59 | a success arriving after a reset (one not made through the page, whose reset button is not rendered in flight) is still stored: the result screen shows with both slots empty |
| `Interleavings.ErrorAppliedAfterReset` | App.tsx:42-59 | a failure arriving after such a reset shows the generation error on the emptied upload screen |
| `Interleavings.RepeatedGenerate` | App.tsx:32-40 | two calls to the handler issue two identical requests; between them the Generate button cannot be clicked |
| `Interleavings.FileErrorDuringGeneration` | App.tsx:18-49 | a failed file read during generation followed by a success leaves both a result and an error set |
| `Interleavings.LastCompletedSelectionWins` | App.tsx:18-25 | of two completed selections for one slot, the one completing last is kept |
| `Interleavings.ResetTwice` | App.tsx:53-59 | resetting twice gives the same state as resetting once, the initial one |

## Left out

- `FileReader`, `readAsDataURL` and the base64 encoding itself (utils/fileUtils.ts:11, 29) are browser I/O. The read is an input string or a read-error flag. The encoding of the bytes is not visible to the model.
- The rejection's `Error` message and every `console.error` call only reach the console, so they are not modelled. The rejection is the `EncodeError` value.
- `performVirtualTryOn` (`services/geminiService`) is not part of this model. Its answer is the `SynthesisOutcome` input, independent of the request passed to it.
- React's hooks, `useCallback`, re-rendering and the JSX layout are not modelled. Each handler writes the fields in the order the source does, and a render is a function of the current state.
- `components/ImageUploader.tsx` forwards the first selected or dropped file (ImageUploader.tsx:16-19, 32-35), forwards clicks on its area to the hidden file input (ImageUploader.tsx:22-24), and shows the image when its `previewUrl` prop is truthy (ImageUploader.tsx:53). `App` passes that prop as `personFileData?.previewUrl || null` and `clothingFileData?.previewUrl || null` (App.tsx:86, 93). `components/Spinner.tsx` is markup. All of this is presentation.
- The asynchronous runtime is not modelled. `HandleFileSelect` is the step at which the awaited read completes. The start of a selection changes no state. Interleavings are orderings of the step methods chosen by a caller.
- `FileUtils.Split` works on Dafny characters. JavaScript splits UTF-16 code units, which is the same for the ASCII data URLs the browser produces.
