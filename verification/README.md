# AetherCanvas workflow core in Dafny

AetherCanvas is a browser front end for AI image enhancement. A user uploads an
image and picks a prompt, an upscale factor (2, 4, 8 or 16) and a creativity
level (0 to 100). The app sends the image and a composed instruction to a
remote generative model and shows the returned image beside the original in a
before/after slider. This project models the logic under that UI:

- `optional.dfy`, `types.dfy`: an `Option` type for JavaScript's
  `undefined`/`null`, and the `ImageData` record (`types.ts`).
- `js_strings.dfy` (`JsStrings`): the JavaScript string operations the code
  relies on. These are `split` and `join` with a one-character separator,
  `includes`, and the decimal rendering of `${n}`. Each comes with lemmas
  that tie it to an independent definition. `LastIndexOf` is not used by the
  code: it is the model's own reference definition of the last dot, against
  which the `split`/`join` download name is checked.
- `file_utils.dfy` (`FileUtils`): the `onload` body of `fileToImageData`.
  The payload is `dataUrl.split(',')[1]`, and the record copies the file's
  type and name.
- `gemini_service.dfy` (`GeminiService`): `processImageWithGemini` without
  the SDK. It covers the prompt template, the two request parts, the scan for
  the first image part (a loop method proved against a recursive
  specification), the `data:` URI, and the rethrown error messages.
- `result_viewer.dfy` (`ResultViewer`): the download file name, the download
  link, and the comparison slider with its clip inset.
- `app.dfy` (`App`): the orchestrator. `AppState` with one transition
  function per handler, and the class `Workflow`, whose fields are the state
  hooks and whose methods make the same updates step by step. The two
  asynchronous handlers are split at their `await`:
  `UploadStart`/`UploadResolve` and `SubmitStart`/`SubmitResolve`. An
  interleaving is any sequence of these calls.

The SDK call is a parameter, `CallOutcome`: either the response or the value
it threw. `ProcessImageWithGemini` states how the client's promise then
settles. `Workflow.SubmitResolve` takes that settlement (`Settled`) as input.

## Behaviour of the code worth knowing

- A response is applied whenever it arrives. The handlers keep no request
  identity, so a response that settles after the image was replaced is stored
  and shown against the new image. A user can produce this by choosing a
  file while a request is in flight, for instance from the keyboard: the
  uploader's file input stays in the page, enabled, under the progress
  overlay (components/ImageUploader.tsx:55).
  `App.LateResultAfterReupload` proves this sequence.
  `App.LateResultShownWithNewImage` and
  `App.OlderSettlementEndsNewerProcessing` are further interleavings of the
  handlers. They start over while a request is in flight, which the page does
  not offer: start-over lives in the comparison view, and that view is hidden
  while processing. They show a late result after a start-over, and an older
  request clearing `isProcessing` while a newer one is in flight.
- `handleProcessImage` does not itself refuse a second submit while one is in
  flight. Only the disabled button prevents it (`App.CanSubmit`,
  `App.EnabledSubmitCalls`).
- For a file name without a dot, the download name is `-aethercanvas.`
  followed by the whole name (`ResultViewer.DownloadNameAtLastDot`).
- When the data URL has no comma, `ImageData.base64` is `undefined`, not a
  string (`FileUtils.PayloadOf`). It is passed on unchanged as the request's
  inline data.

## Model

| member | source | states |
|---|---|---|
| `JsStrings.SplitSegments` | components/ResultViewer.tsx:23 | no segment of `split` contains the separator, and there is a single segment exactly when the string has no separator |
| `JsStrings.JoinSplit` | components/ResultViewer.tsx:23-25 | joining the segments of a split with the same separator gives back the original string |
| `JsStrings.SplitAtFirstSeparator` | utils/fileUtils.ts:9 | the text before the first separator is the first segment, and the rest splits on its own |
| `JsStrings.IncludesIffOccurs` | services/geminiService.ts:57 | `includes` is true exactly when the substring occurs at some index (both directions) |
| `JsStrings.DecimalString` | services/geminiService.ts:20-21 | a number renders as decimal digits with no leading zero (the first digit is `0` only for 0) |
| `JsStrings.DecimalStringRoundTrip` | services/geminiService.ts:20-21 | the digits interpolated for a number read back as that number |
| `FileUtils.PayloadOf` | utils/fileUtils.ts:9 | `split(',')[1]` is absent exactly when the data URL has no comma, and never contains a comma |
| `FileUtils.PayloadBetweenFirstCommas` | utils/fileUtils.ts:9 | the payload is the text after the first comma, up to the next comma or the end |
| `FileUtils.FileToImageData` | utils/fileUtils.ts:7-12 | rejects exactly when the read fails; otherwise media type and name are the file's, unchanged, and `base64` is the comma-split payload |
| `GeminiService.ComposedPromptMentionsEveryInput` | services/geminiService.ts:18-25 | the instruction contains `<factor>x`, `<level>/100`, and the user's prompt in double quotes after `User's Request: ` |
| `GeminiService.UserPromptRecoverable` | services/geminiService.ts:22 | the user's prompt appears verbatim, with nothing escaped or trimmed, at a position fixed by the two numbers |
| `GeminiService.BuildRequest` | services/geminiService.ts:28-44 | exactly two parts in order: the image's base64 and mime type unchanged, then the composed text; image output is requested |
| `GeminiService.FirstCandidateParts` | services/geminiService.ts:47 | the first candidate's parts are scanned; absent or empty candidates, or a first candidate without content or parts, give no parts |
| `GeminiService.OnlyFirstCandidateRead` | services/geminiService.ts:47 | candidates after the first never change the parts scanned |
| `GeminiService.FirstImageUriIsFirstCarrier` | services/geminiService.ts:47-51 | the result is the URI of the first part with non-empty inline data; earlier parts without data are skipped |
| `GeminiService.FirstImageUriAbsent` | services/geminiService.ts:47-53 | no image is found exactly when no part carries non-empty inline data |
| `GeminiService.LaterPartsIgnored` | services/geminiService.ts:48-50 | parts after the chosen image never change the result |
| `GeminiService.FindImageUri` | services/geminiService.ts:47-51 | the early-returning loop computes the first-image URI |
| `GeminiService.DataUriPayloadRoundTrip` | services/geminiService.ts:49 | comma-splitting a built `data:<mime>;base64,<data>` URI recovers the data when neither mime type nor data has a comma |
| `GeminiService.RethrownMessage` | services/geminiService.ts:56-60 | the fixed invalid-key message is rethrown exactly when the message contains `API key not valid`; otherwise the message is `Failed to process image. ` plus the caught message, or the unknown-error text for non-Errors |
| `GeminiService.InvalidKeyWhateverSurrounds` | services/geminiService.ts:57-58 | any message containing `API key not valid` maps to the fixed invalid-key message, whatever surrounds it |
| `GeminiService.NoImageIsReportedAsFailure` | services/geminiService.ts:53-60 | a response without an image surfaces as `Failed to process image. No image data found in the API response.` |
| `GeminiService.ProcessImageWithGemini` | services/geminiService.ts:11-62 | builds the request from the composed prompt; fulfils with the first image URI; otherwise rejects with the mapped message; it never rejects with a non-Error |
| `ResultViewer.DownloadNameAtLastDot` | components/ResultViewer.tsx:23-26 | with a dot, the tag replaces the last dot and earlier dots stay in the base; without one, the name is `-aethercanvas.` plus the whole name |
| `ResultViewer.DownloadNameKeepsExtension` | components/ResultViewer.tsx:24-26 | the download name always contains `-aethercanvas.` and ends with the dot-free extension segment |
| `ResultViewer.Download` | components/ResultViewer.tsx:20-26 | the link targets the processed image unchanged, and its file name is the derived download name, which carries the tag |
| `ResultViewer.ComparisonSlider.constructor` | components/ResultViewer.tsx:13 | the slider starts at 50 |
| `ResultViewer.ComparisonSlider.Change` | components/ResultViewer.tsx:16-18 | the slider takes the range input's value, which lies in 0..100 |
| `ResultViewer.ComparisonSlider.ClipInset` | components/ResultViewer.tsx:38 | the clip inset is 100 minus the position, so it stays in 0..100 |
| `App.InitialIsIdle` | App.tsx:17-26 | initial state: default prompt, factor 4, creativity 75, not processing, no error, image or URLs; nothing is shown or submittable |
| `App.InvariantPreserved` | App.tsx:28-68 | every handler keeps the factor in {2,4,8,16}, creativity in 0..100, and no result while processing |
| `App.UploadOutcome` | App.tsx:28-39 | a completed read installs the image and its URL, clears the result and leaves the error cleared; a failed read sets `Failed to read the image file.` and changes nothing else |
| `App.SubmitWithoutImage` | App.tsx:42-45 | with no image, the error is `Please upload an image first.`, no remote call is made, and nothing else changes |
| `App.SubmitWithImage` | App.tsx:47-52 | with an image, processing starts, the error and the previous result are cleared, and the client gets the current image and parameters |
| `App.EnabledSubmitCalls` | components/ControlPanel.tsx:88 | the enabled button always leads to a remote call, and it is disabled while processing |
| `App.SubmissionSettles` | App.tsx:51-59 | after settling, processing is false; success stores the URL with no error; failure stores the message and leaves no result |
| `App.ErrorMessagePassesThrough` | App.tsx:55-56 | an Error's message is shown as is; a non-Error shows the unknown-error text |
| `App.StartOverClears` | App.tsx:62-68 | start-over clears the image, both URLs and the error, ends processing, and keeps prompt, factor and creativity |
| `App.ResultViewerCondition` | App.tsx:77 | with non-empty URLs, the result view shows exactly when the processed URL, the original URL and the image are all present |
| `App.OverlaysExclusive` | App.tsx:77-104 | the comparison view and the two overlays never show together, and with an image URL set exactly one shows; in a reachable state a request in flight shows the progress overlay |
| `App.LateResultAfterReupload` | App.tsx:28-53 | a file chosen while a request is in flight replaces the image and keeps processing on; the request's result is then stored and shown against the new image |
| `App.LateResultShownWithNewImage` | App.tsx:51-53 | as an interleaving of the handlers (not offered by the page): a response arriving after start-over and a re-upload is still stored and shown against the new image |
| `App.OlderSettlementEndsNewerProcessing` | App.tsx:57-58 | as an interleaving of the handlers (not offered by the page): an older request settling ends processing while a newer request is in flight |
| `App.UpscaleScenario` | App.tsx:28-59 | upload, 8x, creativity 30, one JPEG part `AAAA` as the response: the call carries 8 and 30, and the result is `data:image/jpeg;base64,AAAA` with processing ended |
| `App.Workflow.constructor` | App.tsx:17-26 | the state hooks start at their initial values |
| `App.Workflow.SetPrompt` | components/ControlPanel.tsx:45 | only the prompt changes |
| `App.Workflow.SetUpscaleFactor` | components/ControlPanel.tsx:54-57 | only the factor changes, to one of the offered values |
| `App.Workflow.SetCreativity` | components/ControlPanel.tsx:74-80 | only the creativity changes, to a value in 0..100 |
| `App.Workflow.UploadStart` | App.tsx:28-30 | the error is cleared before the file is read |
| `App.Workflow.UploadResolve` | App.tsx:31-38 | a completed read installs the image and its URL and clears the result; a failed read keeps the image and sets the read error |
| `App.Workflow.SubmitStart` | App.tsx:41-49 | with no image, sets the missing-image error and makes no call; otherwise starts processing, clears error and result, and returns the call's arguments |
| `App.Workflow.SubmitResolve` | App.tsx:51-59 | whatever the state by then, stores the URL or the message and ends processing |
| `App.Workflow.StartOver` | App.tsx:62-68 | clears image, URLs and error, ends processing, keeps the parameters |

## Left out

- The `GoogleGenAI` client, its construction, the API-key placeholder
  fallback and the network exchange (services/geminiService.ts:2-9, 27-45).
  The SDK's answer is the `CallOutcome` parameter.
- `FileReader` and base64 encoding (utils/fileUtils.ts:6-13). The data URL
  the reader produces is a parameter. No byte-level round trip is claimed.
- `URL.createObjectURL` (App.tsx:33). Its result is the `objectUrl`
  parameter.
- Creating, clicking and removing the download link
  (components/ResultViewer.tsx:21, 27-29), and all `console` logging. These
  are side effects with no logic.
- The slider handle's CSS offset `calc(position% - 3px)`
  (components/ResultViewer.tsx:44). This is layout only.
- The header, footer and uploader components, the theme hook, the `Theme`
  enum and the JSX markup. These are presentation only. Which of the
  comparison view and the uploader's overlays shows (App.tsx:77-104) is
  modelled by the `App.Shows*` predicates.
- The event loop. The two halves of each asynchronous handler are separate
  methods, and an interleaving is the order in which a caller invokes them.
  There is no scheduler and no cancellation, as in the code.
- Response parts other than `inlineData`. The scan reads nothing else.
- Numbers are modelled as naturals. The controls only ever produce the whole
  numbers 2, 4, 8, 16 and 0..100, so JavaScript's fractional and negative
  numbers never reach `${n}`.
